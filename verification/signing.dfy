/** Request signing for the Last.fm API: the parameters are ordered by key,
    each key is written immediately followed by its value, the shared secret
    is appended, and the digest of that string is sent as `api_sig`. */
module Signing {
  import opened Records

  /** A request parameter: (key, value). */
  type Param = (string, string)

  /* ---------------------------------------------------------------------
     The order on keys. Rust orders `String`s lexicographically by their
     UTF-8 bytes, which is the same as ordering them lexicographically by
     code point, the order of Dafny's `char`.
     --------------------------------------------------------------------- */

  /** `a` comes strictly before `b`. */
  predicate Below(a: string, b: string)
    decreases |a|
  {
    if a == [] then b != []
    else if b == [] then false
    else if a[0] == b[0] then Below(a[1..], b[1..])
    else a[0] < b[0]
  }

  lemma {:induction false} BelowIrreflexive(a: string)
    ensures !Below(a, a)
  {
    if a != [] {
      BelowIrreflexive(a[1..]);
    }
  }

  lemma {:induction false} BelowTransitive(a: string, b: string, c: string)
    requires Below(a, b) && Below(b, c)
    ensures Below(a, c)
    decreases |a|
  {
    if a != [] && b != [] && c != [] && a[0] == b[0] && b[0] == c[0] {
      BelowTransitive(a[1..], b[1..], c[1..]);
    }
  }

  lemma {:induction false} BelowTotal(a: string, b: string)
    requires a != b
    ensures Below(a, b) || Below(b, a)
    decreases |a|
  {
    if a != [] && b != [] && a[0] == b[0] {
      assert a == [a[0]] + a[1..] && b == [b[0]] + b[1..];
      BelowTotal(a[1..], b[1..]);
    }
  }

  /* ---------------------------------------------------------------------
     The sort. `sort_by_key` is the standard library's stable sort; it is
     given here by an insertion sort with the same result: ordered by key,
     a permutation of its input, and pairs with equal keys in input order.
     --------------------------------------------------------------------- */

  /** No pair has a smaller key than a pair before it. */
  predicate SortedByKey(s: seq<Param>)
  {
    forall i, j :: 0 <= i < j < |s| ==> !Below(s[j].0, s[i].0)
  }

  /** Inserts `p` after every pair whose key is not greater than its own. */
  function InsertByKey(s: seq<Param>, p: Param): (r: seq<Param>)
    ensures multiset(r) == multiset(s) + multiset{p}
  {
    if s == [] then [p]
    else if Below(p.0, s[0].0) then [p] + s
    else
      assert s == [s[0]] + s[1..];
      [s[0]] + InsertByKey(s[1..], p)
  }

  lemma {:induction false} InsertSorted(s: seq<Param>, p: Param)
    requires SortedByKey(s)
    ensures SortedByKey(InsertByKey(s, p))
  {
    if s == [] {
    } else if Below(p.0, s[0].0) {
      var r := [p] + s;
      forall i, j | 0 <= i < j < |r|
        ensures !Below(r[j].0, r[i].0)
      {
        if i == 0 && Below(r[j].0, p.0) {
          assert r[j] == s[j - 1];
          BelowTransitive(s[j - 1].0, p.0, s[0].0);
          if j == 1 {
            BelowIrreflexive(s[0].0);
          }
        }
      }
    } else {
      InsertSorted(s[1..], p);
      var t := InsertByKey(s[1..], p);
      var r := [s[0]] + t;
      forall i, j | 0 <= i < j < |r|
        ensures !Below(r[j].0, r[i].0)
      {
        if i == 0 {
          var x := r[j];
          assert x in multiset(t);
          if x != p {
            assert x in multiset(s[1..]);
            var k :| 0 <= k < |s[1..]| && s[1..][k] == x;
            assert s[k + 1] == x;
          }
        }
      }
    }
  }

  /** `sort_by_key` on the keys: stable, ascending. */
  function SortByKey(q: seq<Param>): seq<Param>
  {
    if q == [] then [] else InsertByKey(SortByKey(q[..|q| - 1]), q[|q| - 1])
  }

  /** Sorting keeps every pair, as often as it occurs. */
  lemma {:induction false} SortByKeyPermutes(q: seq<Param>)
    ensures multiset(SortByKey(q)) == multiset(q)
  {
    if q != [] {
      assert q == q[..|q| - 1] + [q[|q| - 1]];
      SortByKeyPermutes(q[..|q| - 1]);
    }
  }

  /** Sorting orders the pairs by key. */
  lemma {:induction false} SortByKeySorted(q: seq<Param>)
    ensures SortedByKey(SortByKey(q))
  {
    if q != [] {
      SortByKeySorted(q[..|q| - 1]);
      InsertSorted(SortByKey(q[..|q| - 1]), q[|q| - 1]);
    }
  }

  /** The pairs of `s` whose key is `k`, in order. */
  function WithKey(s: seq<Param>, k: string): seq<Param>
  {
    if s == [] then []
    else (if s[0].0 == k then [s[0]] else []) + WithKey(s[1..], k)
  }

  lemma {:induction false} WithKeyAppend(a: seq<Param>, b: seq<Param>, k: string)
    ensures WithKey(a + b, k) == WithKey(a, k) + WithKey(b, k)
  {
    if a != [] {
      assert (a + b)[1..] == a[1..] + b;
      WithKeyAppend(a[1..], b, k);
    } else {
      assert a + b == b;
    }
  }

  lemma {:induction false} WithKeyNone(s: seq<Param>, k: string)
    requires forall i :: 0 <= i < |s| ==> s[i].0 != k
    ensures WithKey(s, k) == []
  {
    if s != [] {
      WithKeyNone(s[1..], k);
    }
  }

  lemma SortedTail(s: seq<Param>)
    requires s != [] && SortedByKey(s)
    ensures SortedByKey(s[1..])
  {
    forall i, j | 0 <= i < j < |s[1..]|
      ensures !Below(s[1..][j].0, s[1..][i].0)
    {
      assert s[1..][j] == s[j + 1] && s[1..][i] == s[i + 1];
    }
  }

  lemma WithKeyCons(x: Param, t: seq<Param>, k: string)
    ensures WithKey([x] + t, k) == (if x.0 == k then [x] else []) + WithKey(t, k)
  {
    assert ([x] + t)[1..] == t;
  }

  lemma {:induction false} InsertKeepsEqualKeyOrder(s: seq<Param>, p: Param, k: string)
    requires SortedByKey(s)
    ensures WithKey(InsertByKey(s, p), k) == WithKey(s, k) + (if p.0 == k then [p] else [])
  {
    if s == [] {
      WithKeyCons(p, [], k);
    } else if Below(p.0, s[0].0) {
      assert InsertByKey(s, p) == [p] + s;
      WithKeyCons(p, s, k);
      if p.0 == k {
        forall i | 0 <= i < |s|
          ensures s[i].0 != k
        {
          if i == 0 {
            BelowIrreflexive(k);
          } else {
            assert !Below(s[i].0, s[0].0);
          }
        }
        WithKeyNone(s, k);
      }
    } else {
      var t := InsertByKey(s[1..], p);
      var head, extra := (if s[0].0 == k then [s[0]] else []), (if p.0 == k then [p] else []);
      SortedTail(s);
      calc {
        WithKey(InsertByKey(s, p), k);
        WithKey([s[0]] + t, k);
        { WithKeyCons(s[0], t, k); }
        head + WithKey(t, k);
        { InsertKeepsEqualKeyOrder(s[1..], p, k); }
        head + (WithKey(s[1..], k) + extra);
        (head + WithKey(s[1..], k)) + extra;
        { WithKeyCons(s[0], s[1..], k); assert [s[0]] + s[1..] == s; }
        WithKey(s, k) + extra;
      }
    }
  }

  /** Sorting is stable: among pairs with one key, the input order is kept. */
  lemma {:induction false} SortKeepsEqualKeyOrder(q: seq<Param>, k: string)
    ensures WithKey(SortByKey(q), k) == WithKey(q, k)
  {
    if q != [] {
      var init, last := q[..|q| - 1], q[|q| - 1];
      var extra := if last.0 == k then [last] else [];
      calc {
        WithKey(SortByKey(q), k);
        WithKey(InsertByKey(SortByKey(init), last), k);
        { SortByKeySorted(init); InsertKeepsEqualKeyOrder(SortByKey(init), last, k); }
        WithKey(SortByKey(init), k) + extra;
        { SortKeepsEqualKeyOrder(init, k); }
        WithKey(init, k) + extra;
        { WithKeyCons(last, [], k); assert [last] + [] == [last]; }
        WithKey(init, k) + WithKey([last], k);
        { WithKeyAppend(init, [last], k); assert init + [last] == q; }
        WithKey(q, k);
      }
    }
  }

  /** Two pairs with the same key have the same value; true in particular when
      no key occurs twice. */
  predicate KeyDeterminesValue(q: seq<Param>)
  {
    forall x, y | x in q && y in q :: x.0 == y.0 ==> x == y
  }

  lemma SortedHeadFirst(s: seq<Param>, x: Param)
    requires SortedByKey(s) && x in s
    ensures !Below(x.0, s[0].0)
  {
    var k :| 0 <= k < |s| && s[k] == x;
    if k == 0 {
      BelowIrreflexive(x.0);
    }
  }

  /** Two sorted permutations of parameters whose keys determine their values
      start with the same pair. */
  lemma SortedSameHead(s: seq<Param>, t: seq<Param>)
    requires s != [] && SortedByKey(s) && SortedByKey(t)
    requires multiset(s) == multiset(t)
    requires KeyDeterminesValue(s)
    ensures t != [] && s[0] == t[0]
  {
    assert s[0] in multiset(t);
    assert t != [] && s[0] in t;
    assert t[0] in s by {
      assert t[0] in multiset(s);
    }
    SortedHeadFirst(t, s[0]);
    SortedHeadFirst(s, t[0]);
    if s[0].0 != t[0].0 {
      BelowTotal(s[0].0, t[0].0);
      assert false;
    }
  }

  lemma SortedTails(s: seq<Param>, t: seq<Param>)
    requires s != [] && t != [] && s[0] == t[0]
    requires SortedByKey(s) && SortedByKey(t)
    requires multiset(s) == multiset(t)
    requires KeyDeterminesValue(s)
    ensures SortedByKey(s[1..]) && SortedByKey(t[1..])
    ensures multiset(s[1..]) == multiset(t[1..])
    ensures KeyDeterminesValue(s[1..])
  {
    SortedTail(s);
    SortedTail(t);
    assert multiset(s) == multiset([s[0]]) + multiset(s[1..]) by {
      assert s == [s[0]] + s[1..];
    }
    assert multiset(t) == multiset([t[0]]) + multiset(t[1..]) by {
      assert t == [t[0]] + t[1..];
    }
    assert multiset(s[1..]) == multiset(s) - multiset([s[0]]);
    assert multiset(t[1..]) == multiset(t) - multiset([t[0]]);
    forall x, y | x in s[1..] && y in s[1..] && x.0 == y.0
      ensures x == y
    {
      assert x in s && y in s;
    }
  }

  lemma {:induction false} SortedUnique(s: seq<Param>, t: seq<Param>)
    requires SortedByKey(s) && SortedByKey(t)
    requires multiset(s) == multiset(t)
    requires KeyDeterminesValue(s)
    ensures s == t
  {
    if s == [] {
      assert |multiset(t)| == 0;
    } else {
      SortedSameHead(s, t);
      SortedTails(s, t);
      SortedUnique(s[1..], t[1..]);
      assert s == [s[0]] + s[1..] && t == [t[0]] + t[1..];
    }
  }

  /** Any reordering of parameters whose equal keys carry equal values sorts
      to the same sequence. */
  lemma {:induction false} SortIgnoresOrder(q1: seq<Param>, q2: seq<Param>)
    requires multiset(q1) == multiset(q2)
    requires KeyDeterminesValue(q1)
    ensures SortByKey(q1) == SortByKey(q2)
  {
    var s1, s2 := SortByKey(q1), SortByKey(q2);
    SortByKeyPermutes(q1);
    SortByKeyPermutes(q2);
    SortByKeySorted(q1);
    SortByKeySorted(q2);
    forall x, y | x in s1 && y in s1 && x.0 == y.0
      ensures x == y
    {
      assert x in multiset(q1) && y in multiset(q1);
    }
    SortedUnique(s1, s2);
  }

  /* ---------------------------------------------------------------------
     The pre-image and the signature.
     --------------------------------------------------------------------- */

  /** Every key immediately followed by its value, without separators. */
  function Concat(ps: seq<Param>): string
  {
    if ps == [] then "" else ps[0].0 + ps[0].1 + Concat(ps[1..])
  }

  lemma {:induction false} ConcatAppend(a: seq<Param>, b: seq<Param>)
    ensures Concat(a + b) == Concat(a) + Concat(b)
  {
    if a != [] {
      assert (a + b)[1..] == a[1..] + b;
      ConcatAppend(a[1..], b);
    } else {
      assert a + b == b;
    }
  }

  /** Extending the pairs by one extends the concatenation by that pair. */
  lemma ConcatStep(ps: seq<Param>, i: nat)
    requires i < |ps|
    ensures Concat(ps[..i + 1]) == Concat(ps[..i]) + (ps[i].0 + ps[i].1)
  {
    assert ps[..i + 1] == ps[..i] + [ps[i]];
    ConcatAppend(ps[..i], [ps[i]]);
    assert [ps[i]][1..] == [];
  }

  /** The layout of the pre-image: what comes before the `i`-th pair, the
      pair's key, its value, and what follows it. */
  lemma {:induction false} ConcatAt(ps: seq<Param>, i: nat)
    requires i < |ps|
    ensures Concat(ps) == Concat(ps[..i]) + ps[i].0 + ps[i].1 + Concat(ps[i + 1..])
  {
    assert ps == ps[..i] + ps[i..];
    ConcatAppend(ps[..i], ps[i..]);
    assert ps[i..][1..] == ps[i + 1..];
  }

  /** The string that is hashed: the sorted pairs, then the secret. */
  function PreImage(sorted: seq<Param>, secret: string): string
  {
    Concat(sorted) + secret
  }

  /** The `api_sig` value for `query`: the hex digest of its pre-image. */
  function Signature(digest: string -> string, secret: string, query: seq<Param>): string
  {
    digest(PreImage(SortByKey(query), secret))
  }

  /** Signing does not depend on the order in which the parameters are given,
      as long as a key never occurs with two different values. */
  lemma SignatureIgnoresOrder(digest: string -> string, secret: string, q1: seq<Param>, q2: seq<Param>)
    requires multiset(q1) == multiset(q2)
    requires KeyDeterminesValue(q1)
    ensures PreImage(SortByKey(q1), secret) == PreImage(SortByKey(q2), secret)
    ensures Signature(digest, secret, q1) == Signature(digest, secret, q2)
  {
    SortIgnoresOrder(q1, q2);
  }

  /** With one key given twice, the order matters: the stable sort keeps
      the two pairs as given, so swapping them changes the pre-image whenever
      the two concatenations differ. */
  lemma DuplicateKeysKeepOrder(x: Param, y: Param, secret: string)
    requires x.0 == y.0
    ensures PreImage(SortByKey([x, y]), secret) == x.0 + x.1 + y.0 + y.1 + secret
    ensures PreImage(SortByKey([y, x]), secret) == y.0 + y.1 + x.0 + x.1 + secret
  {
    SameKeyPairKeepsOrder(x, y);
    SameKeyPairKeepsOrder(y, x);
    ConcatPair(x, y);
    ConcatPair(y, x);
  }

  lemma SameKeyPairKeepsOrder(x: Param, y: Param)
    requires x.0 == y.0
    ensures SortByKey([x, y]) == [x, y]
  {
    assert [x, y][..1] == [x];
    assert [x][..0] == [];
    assert SortByKey([x]) == [x];
    BelowIrreflexive(x.0);
    assert InsertByKey([x], y) == [x] + InsertByKey([x][1..], y);
    assert [x][1..] == [];
  }

  lemma ConcatPair(x: Param, y: Param)
    ensures Concat([x, y]) == x.0 + x.1 + y.0 + y.1
  {
    assert [x, y][1..] == [y];
    assert [y][1..] == [];
    assert Concat([y]) == y.0 + y.1 + Concat([]) == y.0 + y.1;
    assert Concat([x, y]) == x.0 + x.1 + Concat([y]);
  }

  /** The parameters `build_query` sends: the caller's pairs, then `method`,
      `api_key`, `api_sig` and `format`. The signature covers the first
      `|query| + 2` pairs, never `api_sig` or `format`. */
  function SignedQuery(apiKey: string, secret: string, digest: string -> string,
                       apiMethod: string, query: seq<Param>): seq<Param>
  {
    var unsigned := query + [("method", apiMethod), ("api_key", apiKey)];
    unsigned + [("api_sig", Signature(digest, secret, unsigned)), ("format", "json")]
  }

  /** The caller's pairs come first and unchanged, then exactly four pairs;
      the signature covers the caller's pairs, `method` and `api_key`. */
  lemma SignedQueryLayout(apiKey: string, secret: string, digest: string -> string,
                          apiMethod: string, query: seq<Param>)
    ensures var r := SignedQuery(apiKey, secret, digest, apiMethod, query);
      |r| == |query| + 4 && r[..|query|] == query &&
      r[|query|..] == [("method", apiMethod), ("api_key", apiKey),
                       ("api_sig", Signature(digest, secret, r[..|query| + 2])),
                       ("format", "json")]
  {
    var unsigned := query + [("method", apiMethod), ("api_key", apiKey)];
    var r := SignedQuery(apiKey, secret, digest, apiMethod, query);
    assert r[..|query| + 2] == unsigned;
  }

  /* ---------------------------------------------------------------------
     The receiving side: the server drops `api_sig` and `format`, signs what
     is left, and compares with the `api_sig` it received.
     --------------------------------------------------------------------- */

  predicate Unsigned(p: Param)
  {
    p.0 == "api_sig" || p.0 == "format"
  }

  /** The pairs a signature covers. */
  function SignedPart(q: seq<Param>): seq<Param>
  {
    if q == [] then [] else (if Unsigned(q[0]) then [] else [q[0]]) + SignedPart(q[1..])
  }

  /** The value of the first `api_sig` pair. */
  function SignatureIn(q: seq<Param>): Option<string>
  {
    if q == [] then None
    else if q[0].0 == "api_sig" then Some(q[0].1)
    else SignatureIn(q[1..])
  }

  predicate Verifies(digest: string -> string, secret: string, q: seq<Param>)
  {
    SignatureIn(q) == Some(Signature(digest, secret, SignedPart(q)))
  }

  lemma {:induction false} SignedPartAppend(a: seq<Param>, b: seq<Param>)
    ensures SignedPart(a + b) == SignedPart(a) + SignedPart(b)
  {
    if a != [] {
      assert (a + b)[1..] == a[1..] + b;
      SignedPartAppend(a[1..], b);
    } else {
      assert a + b == b;
    }
  }

  lemma {:induction false} SignatureInAppend(a: seq<Param>, b: seq<Param>)
    requires forall i :: 0 <= i < |a| ==> a[i].0 != "api_sig"
    ensures SignatureIn(a + b) == SignatureIn(b)
  {
    if a != [] {
      assert (a + b)[1..] == a[1..] + b;
      SignatureInAppend(a[1..], b);
    } else {
      assert a + b == b;
    }
  }

  lemma {:induction false} SignedPartKeeps(q: seq<Param>)
    requires forall i :: 0 <= i < |q| ==> !Unsigned(q[i])
    ensures SignedPart(q) == q
  {
    if q != [] {
      SignedPartKeeps(q[1..]);
      assert q == [q[0]] + q[1..];
    }
  }

  /** A query built by `build_query` passes the server's check, as long as the
      caller's own pairs do not use the keys `api_sig` or `format`. */
  lemma SignedQueryVerifies(apiKey: string, secret: string, digest: string -> string,
                            apiMethod: string, query: seq<Param>)
    requires forall i :: 0 <= i < |query| ==> !Unsigned(query[i])
    ensures Verifies(digest, secret, SignedQuery(apiKey, secret, digest, apiMethod, query))
  {
    var unsigned := query + [("method", apiMethod), ("api_key", apiKey)];
    var tail := [("api_sig", Signature(digest, secret, unsigned)), ("format", "json")];
    var q := unsigned + tail;
    assert q == SignedQuery(apiKey, secret, digest, apiMethod, query);
    assert forall i :: 0 <= i < |unsigned| ==> !Unsigned(unsigned[i]);
    SignedPartAppend(unsigned, tail);
    SignedPartKeeps(unsigned);
    assert tail[1..] == [("format", "json")] && tail[1..][1..] == [];
    assert SignedPart(tail[1..]) == [];
    SignatureInAppend(unsigned, tail);
    assert SignedPart(q) == unsigned;
    assert SignatureIn(tail) == Some(Signature(digest, secret, unsigned));
  }
}
