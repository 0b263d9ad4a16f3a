/** Python's `%d` and the strings it prints, and splitting and joining strings. */
module Decimals {
  import opened Wrappers

  // ----- printing integers -----

  function Digit(d: nat): char
    requires d < 10
  {
    ('0' as int + d) as char
  }

  function PrintNat(n: nat): string
  {
    if n < 10 then [Digit(n)] else PrintNat(n / 10) + [Digit(n % 10)]
  }

  function Print(n: int): string
  {
    if n < 0 then "-" + PrintNat(-n) else PrintNat(n)
  }

  predicate AllDigits(s: string)
  {
    forall k :: 0 <= k < |s| ==> '0' <= s[k] <= '9'
  }

  lemma {:induction false} PrintNatIsDigits(n: nat)
    ensures |PrintNat(n)| > 0 && AllDigits(PrintNat(n))
  {
    if n >= 10 {
      PrintNatIsDigits(n / 10);
    }
  }

  /** Reading plain digits back. */
  function ReadNat(s: string): nat
    requires AllDigits(s)
  {
    if s == "" then 0
    else
      assert '0' <= s[|s| - 1];
      10 * ReadNat(s[..|s| - 1]) + (s[|s| - 1] as int - '0' as int)
  }

  lemma {:induction false} ReadNatUndoesPrint(n: nat)
    ensures AllDigits(PrintNat(n)) && ReadNat(PrintNat(n)) == n
  {
    PrintNatIsDigits(n);
    if n >= 10 {
      ReadNatUndoesPrint(n / 10);
      var s := PrintNat(n);
      assert s[..|s| - 1] == PrintNat(n / 10);
    }
  }

  /**
   What `int` does to a string: None stands for ValueError. All that is assumed is that it reads back
   what %d prints.
   */
  ghost predicate ReadsBack(read: string -> Option<int>)
  {
    forall n :: read(Print(n)) == Some(n)
  }

  /** A reader of plain decimal strings, which shows that there are such functions. */
  function Decimal(s: string): Option<int>
  {
    if |s| > 0 && s[0] == '-' then
      if AllDigits(s[1..]) then Some(0 - ReadNat(s[1..])) else None
    else if |s| > 0 && AllDigits(s) then Some(ReadNat(s)) else None
  }

  lemma DecimalReadsBack()
    ensures ReadsBack(Decimal)
  {
    forall n: int ensures Decimal(Print(n)) == Some(n) {
      ReadNatUndoesPrint(if n < 0 then -n else n);
      PrintNatIsDigits(if n < 0 then -n else n);
      if n < 0 {
        assert Print(n)[1..] == PrintNat(-n);
      }
    }
  }

  // ----- splitting and joining -----

  /** `split` at every character in stops. */
  function SplitAt(s: string, stops: set<char>): (r: seq<string>)
    ensures |r| > 0
  {
    if s == "" then [""]
    else
      var rest := SplitAt(s[1..], stops);
      if s[0] in stops then [""] + rest else [[s[0]] + rest[0]] + rest[1..]
  }

  function Join(parts: seq<string>, glue: char): string
  {
    if parts == [] then "" else if |parts| == 1 then parts[0] else parts[0] + [glue] + Join(parts[1..], glue)
  }

  predicate Free(s: string, stops: set<char>)
  {
    forall c :: c in stops ==> c !in s
  }

  lemma {:induction false} PiecesAreFree(s: string, stops: set<char>)
    ensures forall k :: 0 <= k < |SplitAt(s, stops)| ==> Free(SplitAt(s, stops)[k], stops)
  {
    if s != "" {
      PiecesAreFree(s[1..], stops);
    }
  }

  lemma {:induction false} SplitFree(s: string, stops: set<char>)
    requires Free(s, stops)
    ensures SplitAt(s, stops) == [s]
  {
    if s != "" {
      assert s[0] in s;
      SplitFree(s[1..], stops);
      assert s == [s[0]] + s[1..];
    }
  }

  lemma {:induction false} SplitFirst(a: string, c: char, b: string, stops: set<char>)
    requires Free(a, stops) && c in stops
    ensures SplitAt(a + [c] + b, stops) == [a] + SplitAt(b, stops)
  {
    var s := a + [c] + b;
    if a == "" {
      assert s[1..] == b;
    } else {
      assert a[0] in a;
      assert s[1..] == a[1..] + [c] + b;
      SplitFirst(a[1..], c, b, stops);
      assert a == [a[0]] + a[1..];
    }
  }

  lemma {:induction false} SplitUndoesJoin(parts: seq<string>, glue: char)
    requires |parts| > 0 && forall k :: 0 <= k < |parts| ==> Free(parts[k], {glue})
    ensures SplitAt(Join(parts, glue), {glue}) == parts
  {
    if |parts| == 1 {
      SplitFree(parts[0], {glue});
    } else {
      SplitUndoesJoin(parts[1..], glue);
      SplitFirst(parts[0], glue, Join(parts[1..], glue), {glue});
    }
  }

  /** Everything in front of the first stop. */
  function Before(s: string, stops: set<char>): string
  {
    if s == "" || s[0] in stops then "" else [s[0]] + Before(s[1..], stops)
  }

  lemma {:induction false} FirstPiece(s: string, stops: set<char>)
    ensures SplitAt(s, stops)[0] == Before(s, stops)
  {
    if s != "" {
      FirstPiece(s[1..], stops);
    }
  }

  lemma {:induction false} BeforeBefore(s: string, a: char, b: char)
    ensures Before(Before(s, {a}), {b}) == Before(s, {a, b})
  {
    if s != "" && s[0] != a {
      BeforeBefore(s[1..], a, b);
      assert Before(s, {a})[1..] == Before(s[1..], {a});
    }
  }

  lemma {:induction false} BeforePrefix(s: string, more: string, c: char)
    requires c in s
    ensures Before(s + more, {c}) == Before(s, {c})
  {
    if s[0] != c {
      assert c in s[1..];
      BeforePrefix(s[1..], more, c);
      assert (s + more)[1..] == s[1..] + more;
    }
  }
}
