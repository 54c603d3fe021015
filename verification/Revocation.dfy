/** The in-memory revocation list of src/oidc/revocation-store.ts. */
module Revocation {
  import opened Bytes
  import opened Utf8
  import opened Secrets
  import opened SealedToken

  function RevocationText(appId: string, token: string): string { appId + " " + token }

  function RevocationKey(digest: Digest, appId: string, token: string): string
  {
    HexOf(digest(Encode(RevocationText(appId, token))))
  }

  datatype Pair = Pair(appId: string, token: string)

  /** The hashed list after revoking the given pairs. */
  function KeysOf(digest: Digest, pairs: set<Pair>): set<string>
  {
    set p | p in pairs :: RevocationKey(digest, p.appId, p.token)
  }

  /** Both pairs are hashed to one digest: they are equal, or the digest or the text collides. */
  predicate Collide(digest: Digest, p: Pair, q: Pair)
  {
    digest(Encode(RevocationText(p.appId, p.token))) == digest(Encode(RevocationText(q.appId, q.token)))
  }

  /** The hashed list holds a query exactly when some listed pair has its digest. */
  lemma ListedExactly(digest: Digest, pairs: set<Pair>, query: Pair)
    ensures RevocationKey(digest, query.appId, query.token) in KeysOf(digest, pairs)
      <==> exists p :: p in pairs && Collide(digest, p, query)
  {
    forall p | p in pairs
      ensures RevocationKey(digest, p.appId, p.token) == RevocationKey(digest, query.appId, query.token)
        <==> Collide(digest, p, query)
    {
      HexRoundTrip(digest(Encode(RevocationText(p.appId, p.token))));
      HexRoundTrip(digest(Encode(RevocationText(query.appId, query.token))));
    }
  }

  class RevocationStore {
    const digest: Digest
    var keys: set<string>
    /** What was revoked, before hashing. */
    ghost var pairs: set<Pair>

    ghost predicate Valid()
      reads this
    {
      keys == KeysOf(digest, pairs)
    }

    constructor (digest: Digest)
      ensures Valid() && this.digest == digest && keys == {} && pairs == {}
    {
      this.digest := digest;
      keys, pairs := {}, {};
    }

    method Revoke(appId: string, token: string)
      requires Valid()
      modifies this
      ensures Valid() && pairs == old(pairs) + {Pair(appId, token)}
      ensures keys == old(keys) + {RevocationKey(digest, appId, token)}
    {
      var key := ToHex(digest(Encode(RevocationText(appId, token))));
      keys := keys + {key};
      pairs := pairs + {Pair(appId, token)};
    }

    method IsRevoked(appId: string, token: string) returns (r: bool)
      requires Valid()
      ensures r <==> RevocationKey(digest, appId, token) in keys
      ensures r <==> exists p :: p in pairs && Collide(digest, p, Pair(appId, token))
    {
      var key := ToHex(digest(Encode(RevocationText(appId, token))));
      r := key in keys;
      ListedExactly(digest, pairs, Pair(appId, token));
    }
  }

  /** The digest tells the query's text from every other revoked text. */
  ghost predicate NoCollision(digest: Digest, pairs: set<Pair>, query: Pair)
  {
    forall p :: p in pairs && RevocationText(p.appId, p.token) != RevocationText(query.appId, query.token) ==>
      !Collide(digest, p, query)
  }

  /**
   * The hashed list is the set of revoked pairs: with ids that hold no space it answers a query like the set of pairs
   * exactly when the query is revoked or no revoked pair collides with it.
   */
  lemma HashedListIsTheSetOfPairs(digest: Digest, pairs: set<Pair>, query: Pair)
    requires SpaceFree(query.appId) && forall p :: p in pairs ==> SpaceFree(p.appId)
    ensures (RevocationKey(digest, query.appId, query.token) in KeysOf(digest, pairs) <==> query in pairs)
      <==> (query in pairs || NoCollision(digest, pairs, query))
  {
    ListedExactly(digest, pairs, query);
    if query in pairs {
      assert Collide(digest, query, query);
    } else if p :| p in pairs && RevocationText(p.appId, p.token) == RevocationText(query.appId, query.token) {
      SplitAtFirstSpace(p.appId, p.token, query.appId, query.token);
      assert false;
    }
  }

  /** With a space in the application id, revoking one pair revokes another whatever the digest. */
  lemma IdsWithSpacesCollide(digest: Digest, a: string, b: string, c: string)
    ensures Collide(digest, Pair(a + " " + b, c), Pair(a, b + " " + c))
  {
    assert (a + " " + b) + " " + c == a + " " + (b + " " + c);
  }
}
