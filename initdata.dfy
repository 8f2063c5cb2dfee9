/**
  Verification of Telegram Mini App init data (app/api/auth/telegram/route.ts,
  `verifyTelegramWebAppData`).  The query string arrives already decoded into
  its (key, value) pairs, in order, as `URLSearchParams` holds them.  The
  check string is the non-`hash` pairs sorted by key, rendered `key=value`
  and joined by line feeds; the signature is the lower-case hex HMAC-SHA-256
  (RFC 2104) of the check string, keyed by the HMAC-SHA-256 of the bot token
  under the key "WebAppData".  HMAC and UTF-8 encoding are parameters.
*/
module InitData {
  import opened Wrappers
  import opened Hex

  type Pair = (string, string)

  /** Lexicographic order on code points: the model of `a.localeCompare(b) < 0`. */
  predicate Less(a: string, b: string)
    decreases |a|
  {
    |b| > 0 && (|a| == 0 || a[0] < b[0] || (a[0] == b[0] && Less(a[1..], b[1..])))
  }

  lemma {:induction false} LessIrreflexive(a: string)
    ensures !Less(a, a)
    decreases |a|
  {
    if |a| > 0 { LessIrreflexive(a[1..]); }
  }

  lemma {:induction false} LessTransitive(a: string, b: string, c: string)
    requires Less(a, b) && Less(b, c)
    ensures Less(a, c)
    decreases |a|
  {
    if |a| > 0 && a[0] == b[0] && b[0] == c[0] {
      LessTransitive(a[1..], b[1..], c[1..]);
    }
  }

  lemma {:induction false} LessTotal(a: string, b: string)
    ensures a == b || Less(a, b) || Less(b, a)
    decreases |a|
  {
    if |a| > 0 && |b| > 0 && a[0] == b[0] {
      LessTotal(a[1..], b[1..]);
      if a[1..] == b[1..] {
        assert a == [a[0]] + a[1..] && b == [b[0]] + b[1..];
      }
    }
  }

  /** The non-strict order `!Less(b, a)` is transitive. */
  lemma NotLessTransitive(a: string, b: string, c: string)
    requires !Less(b, a) && !Less(c, b)
    ensures !Less(c, a)
  {
    if Less(c, a) {
      LessTotal(a, b);
      if Less(a, b) { LessTransitive(c, a, b); }
    }
  }

  /** `urlParams.get(k)`: the value of the first pair with key `k`, or null. */
  function FirstValue(ps: seq<Pair>, k: string): Option<string> {
    if ps == [] then None else if ps[0].0 == k then Some(ps[0].1) else FirstValue(ps[1..], k)
  }

  /** `get` returns a value of the key when there is one, and null only when there is none. */
  lemma {:induction false} FirstValueSpec(ps: seq<Pair>, k: string)
    ensures FirstValue(ps, k).Some? ==> (k, FirstValue(ps, k).value) in ps
    ensures FirstValue(ps, k).None? <==> forall i :: 0 <= i < |ps| ==> ps[i].0 != k
  {
    if ps != [] {
      FirstValueSpec(ps[1..], k);
      if ps[0].0 != k {
        assert forall i :: 1 <= i < |ps| ==> ps[i] == ps[1..][i - 1];
      }
    }
  }

  /** `urlParams.delete(k)`: every pair with key `k` removed, the others kept in order. */
  function Delete(ps: seq<Pair>, k: string): seq<Pair> {
    if ps == [] then []
    else if ps[0].0 == k then Delete(ps[1..], k) else [ps[0]] + Delete(ps[1..], k)
  }

  /** `delete` drops every occurrence of a pair with key `k` and keeps every other occurrence. */
  lemma {:induction false} DeleteCount(ps: seq<Pair>, k: string)
    ensures forall x :: multiset(Delete(ps, k))[x] == if x.0 == k then 0 else multiset(ps)[x]
  {
    if ps != [] {
      DeleteCount(ps[1..], k);
      assert ps == [ps[0]] + ps[1..];
    }
  }

  /** Pairs in ascending key order; pairs with equal keys in any order. */
  predicate SortedByKey(s: seq<Pair>) {
    forall i, j :: 0 <= i < j < |s| ==> !Less(s[j].0, s[i].0)
  }

  /** Places `p` before the first pair whose key is not smaller: equal keys keep their order. */
  function Insert(p: Pair, s: seq<Pair>): seq<Pair> {
    if s == [] then [p]
    else if Less(s[0].0, p.0) then [s[0]] + Insert(p, s[1..])
    else [p] + s
  }

  lemma {:induction false} InsertCount(p: Pair, s: seq<Pair>)
    ensures multiset(Insert(p, s)) == multiset(s) + multiset{p}
  {
    if s != [] {
      assert s == [s[0]] + s[1..];
      if Less(s[0].0, p.0) { InsertCount(p, s[1..]); }
    }
  }

  lemma {:induction false} InsertSorted(p: Pair, s: seq<Pair>)
    requires SortedByKey(s)
    ensures SortedByKey(Insert(p, s))
  {
    if s == [] {
    } else if Less(s[0].0, p.0) {
      var rest := Insert(p, s[1..]);
      InsertSorted(p, s[1..]);
      InsertCount(p, s[1..]);
      forall x | x in rest ensures !Less(x.0, s[0].0) {
        assert x in multiset(s[1..]) + multiset{p};
        if x == p {
          if Less(p.0, s[0].0) { LessTransitive(p.0, s[0].0, p.0); LessIrreflexive(p.0); }
        } else {
          assert x in s[1..];
          var j :| 0 <= j < |s[1..]| && s[1..][j] == x;
          assert s[j + 1] == x;
        }
      }
      var r := [s[0]] + rest;
      forall i, j | 0 <= i < j < |r| ensures !Less(r[j].0, r[i].0) {
        if i > 0 { assert r[i] == rest[i - 1] && r[j] == rest[j - 1]; }
        else { assert r[j] in rest; }
      }
    } else {
      forall j | 0 <= j < |s| ensures !Less(s[j].0, p.0) {
        if j > 0 { NotLessTransitive(p.0, s[0].0, s[j].0); }
      }
      var r := [p] + s;
      forall i, j | 0 <= i < j < |r| ensures !Less(r[j].0, r[i].0) {
        if i > 0 { assert r[i] == s[i - 1] && r[j] == s[j - 1]; }
        else { assert r[j] == s[j - 1]; }
      }
    }
  }

  /** `Array.prototype.sort` with the key comparator: a stable sort by key. */
  function SortByKey(s: seq<Pair>): seq<Pair> {
    if s == [] then [] else Insert(s[0], SortByKey(s[1..]))
  }

  /** The sort returns the same pairs, each as often, in key order. */
  lemma {:induction false} SortByKeySpec(s: seq<Pair>)
    ensures multiset(SortByKey(s)) == multiset(s)
    ensures SortedByKey(SortByKey(s))
  {
    if s != [] {
      SortByKeySpec(s[1..]);
      InsertCount(s[0], SortByKey(s[1..]));
      InsertSorted(s[0], SortByKey(s[1..]));
      assert s == [s[0]] + s[1..];
    }
  }

  function Render(p: Pair): string { p.0 + "=" + p.1 }

  function RenderAll(s: seq<Pair>): (r: seq<string>)
    ensures |r| == |s| && forall i :: 0 <= i < |s| ==> r[i] == Render(s[i])
  {
    if s == [] then [] else [Render(s[0])] + RenderAll(s[1..])
  }

  /** `lines.join("\n")`. */
  function Join(lines: seq<string>): string {
    if lines == [] then "" else if |lines| == 1 then lines[0] else lines[0] + "\n" + Join(lines[1..])
  }

  /** Position of the first line feed, or `|s|` when there is none. */
  function LineEnd(s: string): (i: nat)
    ensures i <= |s| && (forall j :: 0 <= j < i ==> s[j] != '\n') && (i < |s| ==> s[i] == '\n')
  {
    if s == [] || s[0] == '\n' then 0 else 1 + LineEnd(s[1..])
  }

  /** `s.split("\n")`: the pieces between line feeds. */
  function Split(s: string): (r: seq<string>)
    ensures |r| >= 1
    decreases |s|
  {
    var i := LineEnd(s);
    if i == |s| then [s] else [s[..i]] + Split(s[i + 1..])
  }

  /** The pairs the check string is made of. */
  function SortedFields(ps: seq<Pair>): seq<Pair> {
    SortByKey(Delete(ps, "hash"))
  }

  /** `data_check_string`. */
  function CheckString(ps: seq<Pair>): string {
    Join(RenderAll(SortedFields(ps)))
  }

  /** The primitives behind Node's `crypto.createHmac("sha256", key).update(data)`. */
  datatype Crypto = Crypto(hmac: (seq<byte>, seq<byte>) -> seq<byte>, utf8: string -> seq<byte>)

  /** `secret_key = HMAC_SHA256(key: "WebAppData", data: bot_token)`. */
  function SecretKey(crypto: Crypto, botToken: string): seq<byte> {
    crypto.hmac(crypto.utf8("WebAppData"), crypto.utf8(botToken))
  }

  /** `hex(HMAC_SHA256(key: secret_key, data: check_string))`, the signature Telegram attaches. */
  function Signature(crypto: Crypto, botToken: string, checkString: string): string {
    HexLower(crypto.hmac(SecretKey(crypto, botToken), crypto.utf8(checkString)))
  }

  /** `verifyTelegramWebAppData(initData, botToken)`. */
  predicate VerifyInitData(ps: seq<Pair>, botToken: string, crypto: Crypto) {
    var hash := FirstValue(ps, "hash");
    hash.Some? && Signature(crypto, botToken, CheckString(ps)) == hash.value
  }

  /** Pairs with pairwise distinct keys. */
  predicate DistinctKeys(ps: seq<Pair>) {
    forall i, j :: 0 <= i < j < |ps| ==> ps[i].0 != ps[j].0
  }

  /** No two different pairs of the bag share a key (identical repeats allowed). */
  ghost predicate UniqueKeys(m: multiset<Pair>) {
    forall x, y :: x in m && y in m && x.0 == y.0 ==> x == y
  }

  lemma DistinctKeysUnique(ps: seq<Pair>)
    requires DistinctKeys(ps)
    ensures UniqueKeys(multiset(ps))
  {
    forall x, y | x in multiset(ps) && y in multiset(ps) && x.0 == y.0 ensures x == y {
      var i :| 0 <= i < |ps| && ps[i] == x;
      var j :| 0 <= j < |ps| && ps[j] == y;
      assert i == j;
    }
  }

  lemma SortedHeadsEqual(a: seq<Pair>, b: seq<Pair>)
    requires |a| > 0 && SortedByKey(a) && SortedByKey(b)
    requires multiset(a) == multiset(b) && UniqueKeys(multiset(a))
    ensures |b| > 0 && a[0] == b[0]
  {
    assert a[0] in multiset(b);
    assert b[0] in multiset(a);
    var i :| 0 <= i < |a| && a[i] == b[0];
    var j :| 0 <= j < |b| && b[j] == a[0];
    LessIrreflexive(a[0].0);
    LessIrreflexive(b[0].0);
    assert !Less(b[0].0, a[0].0) by { if i > 0 { assert !Less(a[i].0, a[0].0); } }
    assert !Less(a[0].0, b[0].0) by { if j > 0 { assert !Less(b[j].0, b[0].0); } }
    LessTotal(a[0].0, b[0].0);
  }

  lemma SortedTail(a: seq<Pair>)
    requires |a| > 0 && SortedByKey(a)
    ensures SortedByKey(a[1..])
  {
    forall i, j | 0 <= i < j < |a| - 1 ensures !Less(a[1..][j].0, a[1..][i].0) {
      assert a[1..][j] == a[j + 1] && a[1..][i] == a[i + 1];
    }
  }

  lemma TailBag(a: seq<Pair>)
    requires |a| > 0
    ensures multiset(a[1..]) == multiset(a) - multiset{a[0]}
    ensures UniqueKeys(multiset(a)) ==> UniqueKeys(multiset(a[1..]))
  {
    assert a == [a[0]] + a[1..];
  }

  /** The tails of two key-sorted orderings of one bag with unique keys are again such orderings. */
  lemma SortedTails(a: seq<Pair>, b: seq<Pair>)
    requires |a| > 0 && SortedByKey(a) && SortedByKey(b)
    requires multiset(a) == multiset(b) && UniqueKeys(multiset(a))
    ensures |b| > 0 && a[0] == b[0]
    ensures SortedByKey(a[1..]) && SortedByKey(b[1..])
    ensures multiset(a[1..]) == multiset(b[1..]) && UniqueKeys(multiset(a[1..]))
  {
    SortedHeadsEqual(a, b);
    TailBag(a);
    TailBag(b);
    SortedTail(a);
    SortedTail(b);
  }

  /** Two key-sorted orderings of one bag of pairs with unique keys are the same sequence. */
  lemma {:induction false} SortedPermutationUnique(a: seq<Pair>, b: seq<Pair>)
    requires SortedByKey(a) && SortedByKey(b)
    requires multiset(a) == multiset(b) && UniqueKeys(multiset(a))
    ensures a == b
    decreases |a|
  {
    if a == [] {
      assert |b| == |multiset(b)| == 0;
    } else {
      SortedTails(a, b);
      SortedPermutationUnique(a[1..], b[1..]);
      assert a == [a[0]] + a[1..] && b == [b[0]] + b[1..];
    }
  }

  lemma DeletePermutation(p: seq<Pair>, q: seq<Pair>, k: string)
    requires multiset(p) == multiset(q)
    ensures multiset(Delete(p, k)) == multiset(Delete(q, k))
  {
    DeleteCount(p, k);
    DeleteCount(q, k);
    assert forall x :: multiset(Delete(p, k))[x] == multiset(Delete(q, k))[x];
  }

  lemma FirstValuePermutation(p: seq<Pair>, q: seq<Pair>, k: string)
    requires multiset(p) == multiset(q) && UniqueKeys(multiset(p))
    ensures FirstValue(p, k) == FirstValue(q, k)
  {
    var vp, vq := FirstValue(p, k), FirstValue(q, k);
    FirstValueSpec(p, k);
    FirstValueSpec(q, k);
    if vp.Some? {
      assert (k, vp.value) in multiset(q);
    }
    if vq.Some? {
      assert (k, vq.value) in multiset(p);
    }
  }

  /**
    Re-ordering pairs whose keys are distinct changes neither the check
    string nor the verdict.
  */
  lemma ReorderingPreservesVerdict(p: seq<Pair>, q: seq<Pair>, botToken: string, crypto: Crypto)
    requires DistinctKeys(p) && multiset(q) == multiset(p)
    ensures CheckString(q) == CheckString(p)
    ensures VerifyInitData(q, botToken, crypto) == VerifyInitData(p, botToken, crypto)
  {
    DistinctKeysUnique(p);
    DeletePermutation(p, q, "hash");
    var dp, dq := Delete(p, "hash"), Delete(q, "hash");
    DeleteCount(p, "hash");
    SortByKeySpec(dp);
    SortByKeySpec(dq);
    assert UniqueKeys(multiset(SortByKey(dp))) by {
      forall x | x in multiset(dp) ensures x in multiset(p) {}
    }
    SortedPermutationUnique(SortByKey(dp), SortByKey(dq));
    FirstValuePermutation(p, q, "hash");
  }

  /**
    The check string is built from exactly the non-`hash` pairs, each as
    often as it occurs, in key order.
  */
  lemma CheckStringFields(ps: seq<Pair>)
    ensures SortedByKey(SortedFields(ps))
    ensures forall x :: multiset(SortedFields(ps))[x] == if x.0 == "hash" then 0 else multiset(ps)[x]
    ensures forall i :: 0 <= i < |SortedFields(ps)| ==> SortedFields(ps)[i].0 != "hash"
  {
    var s := SortedFields(ps);
    SortByKeySpec(Delete(ps, "hash"));
    DeleteCount(ps, "hash");
    forall i | 0 <= i < |s| ensures s[i].0 != "hash" {
      assert multiset(s)[s[i]] > 0;
    }
  }

  predicate NoLineFeed(s: string) { forall i :: 0 <= i < |s| ==> s[i] != '\n' }

  lemma {:induction false} SplitJoin(lines: seq<string>)
    requires |lines| >= 1 && forall i :: 0 <= i < |lines| ==> NoLineFeed(lines[i])
    ensures Split(Join(lines)) == lines
    decreases |lines|
  {
    if |lines| == 1 {
      assert LineEnd(lines[0]) == |lines[0]|;
    } else {
      var s := Join(lines);
      var l := lines[0];
      assert s == l + "\n" + Join(lines[1..]);
      assert s[|l|] == '\n';
      assert forall j :: 0 <= j < |l| ==> s[j] == l[j];
      assert LineEnd(s) == |l|;
      assert s[..|l|] == l;
      assert s[|l| + 1..] == Join(lines[1..]);
      SplitJoin(lines[1..]);
      assert lines == [l] + lines[1..];
    }
  }

  /** Every pair of the check string is a pair of the payload. */
  lemma SortedFieldsFromPayload(ps: seq<Pair>)
    ensures forall x :: x in SortedFields(ps) ==> x in ps
  {
    SortByKeySpec(Delete(ps, "hash"));
    DeleteCount(ps, "hash");
    forall x | x in SortedFields(ps) ensures x in ps {
      assert x in multiset(SortedFields(ps));
    }
  }

  /**
    Without line feeds inside keys and values, splitting the check string at
    line feeds gives back exactly the rendered pairs: one separator between
    two lines, none at the end.
  */
  lemma CheckStringLines(ps: seq<Pair>)
    requires forall x :: x in ps ==> NoLineFeed(x.0) && NoLineFeed(x.1)
    requires exists x :: x in ps && x.0 != "hash"
    ensures Split(CheckString(ps)) == RenderAll(SortedFields(ps))
  {
    var s := SortedFields(ps);
    SortedFieldsFromPayload(ps);
    var x :| x in ps && x.0 != "hash";
    assert |s| > 0 by {
      SortByKeySpec(Delete(ps, "hash"));
      DeleteCount(ps, "hash");
      assert multiset(s)[x] == multiset(ps)[x] > 0;
    }
    var lines := RenderAll(s);
    forall j | 0 <= j < |lines| ensures NoLineFeed(lines[j]) {
      assert s[j] in s;
      assert lines[j] == s[j].0 + "=" + s[j].1;
    }
    SplitJoin(lines);
  }

  /** A payload without a `hash` pair (the empty payload among them) is never valid. */
  lemma MissingHashRejected(ps: seq<Pair>, botToken: string, crypto: Crypto)
    requires forall i :: 0 <= i < |ps| ==> ps[i].0 != "hash"
    ensures !VerifyInitData(ps, botToken, crypto)
  {
    FirstValueSpec(ps, "hash");
  }

  lemma {:induction false} DeleteIdempotent(ps: seq<Pair>, k: string)
    ensures Delete(Delete(ps, k), k) == Delete(ps, k)
  {
    if ps != [] { DeleteIdempotent(ps[1..], k); }
  }

  lemma {:induction false} DeleteWithout(ps: seq<Pair>, k: string)
    requires forall i :: 0 <= i < |ps| ==> ps[i].0 != k
    ensures Delete(ps, k) == ps
  {
    if ps != [] { DeleteWithout(ps[1..], k); }
  }

  /** `delete` distributes over concatenation. */
  lemma {:induction false} DeleteAppend(x: seq<Pair>, y: seq<Pair>, k: string)
    ensures Delete(x + y, k) == Delete(x, k) + Delete(y, k)
  {
    if x == [] {
      assert x + y == y;
    } else {
      assert (x + y)[0] == x[0] && (x + y)[1..] == x[1..] + y;
      DeleteAppend(x[1..], y, k);
    }
  }

  lemma DeleteSplice(front: seq<Pair>, back: seq<Pair>, p: Pair)
    ensures Delete(front + [p] + back, p.0) == Delete(front, p.0) + Delete(back, p.0)
  {
    DeleteAppend(front + [p], back, p.0);
    DeleteAppend(front, [p], p.0);
    assert Delete([p], p.0) == [] by { assert [p][1..] == []; }
  }

  /**
    Signing the pairs and inserting the signature as a `hash` pair anywhere
    gives a payload that verifies.
  */
  lemma SignedPayloadVerifies(ps: seq<Pair>, at: nat, botToken: string, crypto: Crypto)
    requires forall i :: 0 <= i < |ps| ==> ps[i].0 != "hash"
    requires at <= |ps|
    ensures VerifyInitData(ps[..at] + [("hash", Signature(crypto, botToken, CheckString(ps)))] + ps[at..],
                           botToken, crypto)
  {
    var h := ("hash", Signature(crypto, botToken, CheckString(ps)));
    var signed := ps[..at] + [h] + ps[at..];
    DeleteSplice(ps[..at], ps[at..], h);
    DeleteWithout(ps[..at], "hash");
    DeleteWithout(ps[at..], "hash");
    assert ps[..at] + ps[at..] == ps;
    DeleteWithout(ps, "hash");
    assert Delete(signed, "hash") == Delete(ps, "hash");
    assert FirstValue(signed, "hash") == Some(h.1) by {
      FirstValueSplice(ps[..at], ps[at..], h);
    }
  }

  lemma {:induction false} FirstValueSplice(front: seq<Pair>, back: seq<Pair>, p: Pair)
    requires forall i :: 0 <= i < |front| ==> front[i].0 != p.0
    ensures FirstValue(front + [p] + back, p.0) == Some(p.1)
  {
    if front != [] {
      FirstValueSplice(front[1..], back, p);
      assert (front + [p] + back)[1..] == front[1..] + [p] + back;
    }
  }

  /** The payload with the value of its first `k` pair replaced by `v`. */
  function ReplaceFirst(ps: seq<Pair>, k: string, v: string): seq<Pair> {
    if ps == [] then [] else if ps[0].0 == k then [(k, v)] + ps[1..] else [ps[0]] + ReplaceFirst(ps[1..], k, v)
  }

  lemma {:induction false} ReplaceFirstEffect(ps: seq<Pair>, k: string, v: string)
    requires FirstValue(ps, k).Some?
    ensures Delete(ReplaceFirst(ps, k, v), k) == Delete(ps, k)
    ensures FirstValue(ReplaceFirst(ps, k, v), k) == Some(v)
  {
    if ps[0].0 != k { ReplaceFirstEffect(ps[1..], k, v); }
  }

  /** Changing the supplied hash of a valid payload in any way (one flipped character included) makes it invalid. */
  lemma TamperedHashRejected(ps: seq<Pair>, botToken: string, crypto: Crypto, forged: string)
    requires VerifyInitData(ps, botToken, crypto)
    requires forged != FirstValue(ps, "hash").value
    ensures !VerifyInitData(ReplaceFirst(ps, "hash", forged), botToken, crypto)
  {
    ReplaceFirstEffect(ps, "hash", forged);
  }
}
