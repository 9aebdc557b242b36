/** The client's string keys for grid cells: a cell (x, y) is stored in the `walls` set and in
    the flashlight's visible set as the template literal `${x},${y}`, and turned back into
    numbers with `key.split(',').map(Number)` when it is drawn. */
module WallKey {
  import opened Wrappers
  import opened Grid

  predicate IsDigit(c: char) {
    '0' <= c <= '9'
  }

  function DigitChar(d: nat): (c: char)
    requires d < 10
    ensures IsDigit(c)
  {
    (d + '0' as int) as char
  }

  function DigitValue(c: char): (d: nat)
    requires IsDigit(c)
    ensures d < 10 && DigitChar(d) == c
  {
    c as int - '0' as int
  }

  /** How JavaScript prints a natural number: its decimal digits, most significant first. */
  function NatToString(n: nat): (s: string)
    ensures |s| > 0
    ensures forall i :: 0 <= i < |s| ==> IsDigit(s[i])
    decreases n
  {
    if n < 10 then [DigitChar(n)] else NatToString(n / 10) + [DigitChar(n % 10)]
  }

  /** How JavaScript prints an integer: a minus sign for negative numbers, then the digits. */
  function IntToString(n: int): (s: string)
    ensures |s| > 0 && ',' !in s
  {
    var s := if n < 0 then "-" + NatToString(-n) else NatToString(n);
    assert forall i :: 0 <= i < |s| ==> s[i] != ',';
    s
  }

  /** The key `${x},${y}` of cell (x, y). */
  function Key(x: int, y: int): string {
    IntToString(x) + "," + IntToString(y)
  }

  /** JavaScript's `s.split(',')`: the fields between commas, always at least one. */
  function Split(s: string): (parts: seq<string>)
    ensures |parts| > 0
  {
    if s == [] then [""]
    else
      var rest := Split(s[1..]);
      if s[0] == ',' then [""] + rest else [[s[0]] + rest[0]] + rest[1..]
  }

  /** `Number(s)` on a non-empty string of decimal digits; None for anything else. */
  function ParseNat(s: string): Option<nat>
    decreases |s|
  {
    if s == [] || !IsDigit(s[|s| - 1]) then None
    else if |s| == 1 then Some(DigitValue(s[0]))
    else
      match ParseNat(s[..|s| - 1])
      case None => None
      case Some(v) => Some(v * 10 + DigitValue(s[|s| - 1]))
  }

  /** `Number(s)` on a string of the form `-?[0-9]+`; None (NaN) for every other string. */
  function ParseInt(s: string): (r: Option<int>)
  {
    if |s| > 0 && s[0] == '-' then
      match ParseNat(s[1..])
      case None => None
      case Some(v) => Some(0 - v as int)
    else
      match ParseNat(s)
      case None => None
      case Some(v) => Some(v)
  }

  /** `const [x, y] = key.split(',').map(Number)`: Some cell when both coordinates are numbers,
      None when either is NaN or missing. Fields after the second are ignored, as destructuring
      ignores them. */
  function DecodeKey(key: string): Option<Cell> {
    var parts := Split(key);
    if |parts| < 2 then None
    else
      match (ParseInt(parts[0]), ParseInt(parts[1]))
      case (Some(x), Some(y)) => Some(Cell(x, y))
      case _ => None
  }

  lemma {:induction false} ParseNatToString(n: nat)
    ensures ParseNat(NatToString(n)) == Some(n)
    decreases n
  {
    if n >= 10 {
      var s := NatToString(n);
      assert s[..|s| - 1] == NatToString(n / 10);
      ParseNatToString(n / 10);
    }
  }

  /** Printing an integer and reading it back with `Number` gives the integer. */
  lemma ParseIntToString(n: int)
    ensures ParseInt(IntToString(n)) == Some(n)
  {
    var s := IntToString(n);
    if n < 0 {
      assert s == "-" + NatToString(-n);
      assert s[0] == '-' && s[1..] == NatToString(-n);
      ParseNatToString(-n);
    } else {
      assert s == NatToString(n);
      assert IsDigit(s[0]);
      ParseNatToString(n);
    }
  }

  lemma {:induction false} SplitWithoutComma(s: string)
    requires ',' !in s
    ensures Split(s) == [s]
  {
    if s != [] {
      assert s[0] != ',' && ',' !in s[1..];
      SplitWithoutComma(s[1..]);
      assert [s[0]] + s[1..] == s;
    }
  }

  lemma {:induction false} SplitAtFirstComma(a: string, b: string)
    requires ',' !in a
    ensures Split(a + "," + b) == [a] + Split(b)
  {
    if a == [] {
      assert a + "," + b == [','] + b;
      assert (a + "," + b)[1..] == b;
    } else {
      var s := a + "," + b;
      assert s[0] == a[0] && s[0] != ',';
      assert s[1..] == a[1..] + "," + b;
      SplitAtFirstComma(a[1..], b);
      assert [a[0]] + a[1..] == a;
    }
  }

  /** Decoding the key of a cell gives back the cell, for every integer coordinate. */
  lemma KeyRoundTrip(x: int, y: int)
    ensures DecodeKey(Key(x, y)) == Some(Cell(x, y))
  {
    SplitAtFirstComma(IntToString(x), IntToString(y));
    SplitWithoutComma(IntToString(y));
    ParseIntToString(x);
    ParseIntToString(y);
  }

  /** Distinct cells have distinct keys, so set membership of keys is membership of cells. */
  lemma KeyInjective(a: Cell, b: Cell)
    ensures Key(a.x, a.y) == Key(b.x, b.y) <==> a == b
  {
    KeyRoundTrip(a.x, a.y);
    KeyRoundTrip(b.x, b.y);
  }

  /** The keys of a set of cells. */
  function KeysOf(cells: set<Cell>): set<string> {
    set c | c in cells :: Key(c.x, c.y)
  }

  /** A cell's key is among the keys of a set exactly when the cell is in the set. */
  lemma KeyInKeysOf(c: Cell, cells: set<Cell>)
    ensures Key(c.x, c.y) in KeysOf(cells) <==> c in cells
  {
    if Key(c.x, c.y) in KeysOf(cells) {
      var d :| d in cells && Key(d.x, d.y) == Key(c.x, c.y);
      KeyInjective(c, d);
    }
  }
}
