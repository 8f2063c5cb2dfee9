/**
  The `generate_referral_code()` PL/pgSQL function of
  app/api/setup/init-db/route.ts: eight rounds, each appending
  `substr(chars, floor(random() * length(chars) + 1)::integer, 1)` to the
  result.  `random()` is whatever the server draws; it is a parameter here,
  one draw per round, each in `[0, 1)` as Postgres promises.
*/
module ReferralCode {
  const Chars: string := "ABCDEFGHIJKLMNOPQRSTUVWXYZ0123456789"
  const CodeLength: nat := 8

  predicate IsCodeChar(c: char) {
    ('A' <= c <= 'Z') || ('0' <= c <= '9')
  }

  predicate IsDraw(r: real) { 0.0 <= r < 1.0 }

  /** `substr(s, start, 1)` with its 1-based start: the empty string outside `s`. */
  function Substr1(s: string, start: int): (r: string)
    ensures |r| <= 1
  {
    if 1 <= start <= |s| then [s[start - 1]] else ""
  }

  /** The 1-based position one round picks for draw `r`. */
  function Position(r: real): int {
    (r * (|Chars| as real) + 1.0).Floor
  }

  /** The piece one round appends. */
  function Piece(r: real): string {
    Substr1(Chars, Position(r))
  }

  /** The code a sequence of draws produces, one piece per draw, in order. */
  function CodeOf(draws: seq<real>): string {
    if draws == [] then "" else CodeOf(draws[..|draws| - 1]) + Piece(draws[|draws| - 1])
  }

  /** A draw in `[0, 1)` always lands on one of the 36 characters. */
  lemma PositionInRange(r: real)
    requires IsDraw(r)
    ensures 1 <= Position(r) <= |Chars|
    ensures Piece(r) == [Chars[Position(r) - 1]]
  {
    var x := r * 36.0 + 1.0;
    assert 1.0 <= x < 37.0;
    assert 1 <= x.Floor <= 36;
  }

  lemma CharsAreCodeChars(i: nat)
    requires i < |Chars|
    ensures IsCodeChar(Chars[i])
  {
  }

  /** Every code is `CodeLength` characters drawn from `A-Z0-9`. */
  lemma {:induction false} CodeOfShape(draws: seq<real>)
    requires forall i :: 0 <= i < |draws| ==> IsDraw(draws[i])
    ensures |CodeOf(draws)| == |draws|
    ensures forall i :: 0 <= i < |CodeOf(draws)| ==> IsCodeChar(CodeOf(draws)[i])
  {
    if draws != [] {
      var last := draws[|draws| - 1];
      CodeOfShape(draws[..|draws| - 1]);
      PositionInRange(last);
      CharsAreCodeChars(Position(last) - 1);
    }
  }

  /** The draw that picks the 0-based position `k`. */
  function DrawFor(k: nat): real {
    (k as real) / (|Chars| as real)
  }

  lemma DrawForPicks(k: nat)
    requires k < |Chars|
    ensures IsDraw(DrawFor(k)) && Piece(DrawFor(k)) == [Chars[k]]
  {
    var r := DrawFor(k);
    assert r * 36.0 == k as real;
    assert Position(r) == k + 1;
  }

  /** Every character of the alphabet can be drawn, so no code over it is out of reach. */
  lemma EveryCodeCharReachable(c: char)
    requires IsCodeChar(c)
    ensures exists r :: IsDraw(r) && Piece(r) == [c]
  {
    var k: nat := if 'A' <= c <= 'Z' then (c as int) - ('A' as int) else 26 + (c as int) - ('0' as int);
    assert Chars[k] == c;
    DrawForPicks(k);
  }

  lemma CodeOfPrefix(draws: seq<real>, i: nat)
    requires 1 <= i <= |draws|
    ensures CodeOf(draws[..i]) == CodeOf(draws[..i - 1]) + Piece(draws[i - 1])
  {
    assert draws[..i][..i - 1] == draws[..i - 1];
  }

  /** `generate_referral_code()`: the `FOR i IN 1..8` loop accumulating `result`. */
  method GenerateReferralCode(draws: seq<real>) returns (result: string)
    requires |draws| == CodeLength
    requires forall i :: 0 <= i < |draws| ==> IsDraw(draws[i])
    ensures result == CodeOf(draws)
    ensures |result| == CodeLength
    ensures forall i :: 0 <= i < |result| ==> IsCodeChar(result[i])
  {
    result := "";
    var i := 1;
    while i <= CodeLength
      invariant 1 <= i <= CodeLength + 1
      invariant result == CodeOf(draws[..i - 1])
    {
      CodeOfPrefix(draws, i);
      result := result + Substr1(Chars, Position(draws[i - 1]));
      i := i + 1;
    }
    assert draws[..CodeLength] == draws;
    CodeOfShape(draws);
  }
}
