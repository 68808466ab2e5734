/** The dictionaries and lists that the program reads from its data file and
    writes into loadout events, as values. Python distinguishes `int` from
    `float`, so the two number shapes are kept apart. */
module Json {

  datatype Json =
    | Null
    | Bool(b: bool)
    | Int(i: int)
    | Num(r: real)
    | Str(s: string)
    | Arr(items: seq<Json>)
    | Obj(fields: map<string, Json>)

  /** The decimal digits of a natural number, as Python's `str` gives them. */
  function NatToString(n: nat): (s: string)
    ensures |s| >= 1
    ensures forall k :: 0 <= k < |s| ==> '0' <= s[k] <= '9'
    decreases n
  {
    if n < 10 then [Digit(n)] else NatToString(n / 10) + [Digit(n % 10)]
  }

  function Digit(d: nat): (c: char)
    requires d < 10
    ensures '0' <= c <= '9'
  {
    ('0' as int + d) as char
  }

  function DigitValue(c: char): (d: nat)
    requires '0' <= c <= '9'
    ensures d < 10
  {
    c as int - '0' as int
  }

  /** The number a string of decimal digits denotes. */
  function ParseNat(s: string): nat
    requires forall k :: 0 <= k < |s| ==> '0' <= s[k] <= '9'
  {
    if s == [] then 0 else 10 * ParseNat(s[..|s| - 1]) + DigitValue(s[|s| - 1])
  }

  /** The digits read back as the number they were written from. */
  lemma {:induction false} ParseNatToString(n: nat)
    ensures ParseNat(NatToString(n)) == n
    decreases n
  {
    if n >= 10 {
      ParseNatToString(n / 10);
      var s := NatToString(n);
      assert s[..|s| - 1] == NatToString(n / 10);
    }
  }

  /** Python's `str` of an integer. */
  function IntToString(n: int): (s: string)
    ensures n >= 0 ==> s == NatToString(n)
    ensures n < 0 ==> s == "-" + NatToString(-n)
  {
    if n < 0 then "-" + NatToString(-n) else NatToString(n)
  }

  /** Python's `f"{n:02d}"` for a natural number: at least two digits,
      padded on the left with `0`. */
  function Pad2(n: nat): (s: string)
    ensures |s| >= 2
    ensures n < 10 ==> s == ['0', Digit(n)]
    ensures n >= 10 ==> s == NatToString(n)
  {
    if n < 10 then ['0', Digit(n)] else NatToString(n)
  }

  /** `f"{n:02d}"` for any integer: a negative number already has two
      characters with its sign, so only naturals are padded. */
  function Format02(n: int): (s: string)
    ensures |s| >= 2
    ensures n >= 0 ==> s == Pad2(n)
    ensures n < 0 ==> s == IntToString(n)
  {
    if n < 0 then "-" + NatToString(-n) else Pad2(n)
  }

  /** A padded number reads back as itself: the leading `0` adds nothing. */
  lemma Pad2RoundTrip(n: nat)
    ensures ParseNat(Pad2(n)) == n
  {
    if n < 10 {
      var s := Pad2(n);
      assert s[..|s| - 1] == ['0'];
      assert ['0'][..0] == [];
    } else {
      ParseNatToString(n);
    }
  }
}
