/** The fixed-width multiplication table of the scratch script. */
module MultiplicationGrid {

  /** The character of a decimal digit. */
  function DigitChar(d: nat): (c: char)
    requires d < 10
    ensures '0' <= c <= '9'
  {
    ('0' as int + d) as char
  }

  /** `n.toString()`: decimal digits, most significant first, no leading zero. */
  function Decimal(n: nat): (s: string)
    ensures 1 <= |s|
    ensures forall i :: 0 <= i < |s| ==> '0' <= s[i] <= '9'
    ensures n < 10 <==> |s| == 1
  {
    if n < 10 then [DigitChar(n)] else Decimal(n / 10) + [DigitChar(n % 10)]
  }

  /** The number a string of decimal digits denotes. */
  function DecimalValue(s: string): nat
  {
    if s == [] then 0
    else
      var d := s[|s| - 1] as int - '0' as int;
      DecimalValue(s[..|s| - 1]) * 10 + (if 0 <= d < 10 then d else 0)
  }

  /** `Decimal` is read back as the number it was made from. */
  lemma {:induction false} DecimalRoundTrip(n: nat)
    ensures DecimalValue(Decimal(n)) == n
  {
    var s := Decimal(n);
    if n >= 10 {
      DecimalRoundTrip(n / 10);
      assert s[..|s| - 1] == Decimal(n / 10);
    }
  }

  /** A number with more digits than another is larger: digit counts grow with the number. */
  lemma {:induction false} DecimalWidthMonotone(a: nat, b: nat)
    requires a <= b
    ensures |Decimal(a)| <= |Decimal(b)|
  {
    if a >= 10 {
      DecimalWidthMonotone(a / 10, b / 10);
    }
  }

  /** `s.padStart(width, ' ')`: spaces in front up to `width`; a longer string is left alone. */
  function PadStart(s: string, width: int): string
  {
    if |s| >= width then s else seq(width - |s|, _ => ' ') + s
  }

  /** The padded string is `max(|s|, width)` long, ends with `s` and has only spaces before it. */
  lemma PadStartShape(s: string, width: int)
    ensures var r := PadStart(s, width);
      |r| == (if |s| >= width then |s| else width)
      && r[|r| - |s|..] == s
      && forall i :: 0 <= i < |r| - |s| ==> r[i] == ' '
  {
  }

  /** `parts.join(sep)` for a one-character separator; `[].join(sep)` is the empty string. */
  function Join(parts: seq<string>, sep: char): string
  {
    if |parts| == 0 then ""
    else if |parts| == 1 then parts[0]
    else parts[0] + [sep] + Join(parts[1..], sep)
  }

  /** `s.split(sep)`: the pieces between separators; the empty string gives one empty piece. */
  function Split(s: string, sep: char): (r: seq<string>)
    ensures |r| >= 1
  {
    if s == [] then [""]
    else if s[0] == sep then [""] + Split(s[1..], sep)
    else
      var rest := Split(s[1..], sep);
      [[s[0]] + rest[0]] + rest[1..]
  }

  lemma {:induction false} JoinAppend(parts: seq<string>, last: string, sep: char)
    requires |parts| >= 1
    ensures Join(parts + [last], sep) == Join(parts, sep) + [sep] + last
  {
    if |parts| > 1 {
      assert (parts + [last])[1..] == parts[1..] + [last];
      JoinAppend(parts[1..], last, sep);
    }
  }

  /** The length of a join: every part plus one separator between neighbours. */
  lemma {:induction false} JoinLength(parts: seq<string>, sep: char, width: nat)
    requires |parts| >= 1
    requires forall i :: 0 <= i < |parts| ==> |parts[i]| == width
    ensures |Join(parts, sep)| == |parts| * width + |parts| - 1
  {
    if |parts| > 1 {
      JoinLength(parts[1..], sep, width);
    }
  }

  lemma {:induction false} SplitPrefix(p: string, rest: string, sep: char)
    requires sep !in p
    ensures Split(p + [sep] + rest, sep) == [p] + Split(rest, sep)
  {
    if p != [] {
      assert (p + [sep] + rest)[1..] == p[1..] + [sep] + rest;
      SplitPrefix(p[1..], rest, sep);
      assert [p[0]] + p[1..] == p;
    } else {
      assert p + [sep] + rest == [sep] + rest;
    }
  }

  lemma {:induction false} SplitWhole(p: string, sep: char)
    requires sep !in p
    ensures Split(p, sep) == [p]
  {
    if p != [] {
      SplitWhole(p[1..], sep);
      assert [p[0]] + p[1..] == p;
    }
  }

  /** Splitting a join at its separator gives the parts back, when no part holds the separator. */
  lemma {:induction false} SplitJoin(parts: seq<string>, sep: char)
    requires |parts| >= 1
    requires forall i :: 0 <= i < |parts| ==> sep !in parts[i]
    ensures Split(Join(parts, sep), sep) == parts
  {
    if |parts| == 1 {
      SplitWhole(parts[0], sep);
    } else {
      SplitJoin(parts[1..], sep);
      SplitPrefix(parts[0], Join(parts[1..], sep), sep);
    }
  }

  lemma {:induction false} JoinAvoids(parts: seq<string>, sep: char, c: char)
    requires c != sep
    requires forall i :: 0 <= i < |parts| ==> c !in parts[i]
    ensures c !in Join(parts, sep)
  {
    if |parts| > 1 {
      JoinAvoids(parts[1..], sep, c);
    }
  }

  /** The width every field is padded to: the digit count of `gridSize * gridSize`. */
  function MaxDigits(gridSize: int): nat
  {
    |Decimal(gridSize * gridSize)|
  }

  /** Field `j` of line `i` (both from 1): `i * j`, right-aligned in `width` columns. */
  function Field(i: nat, j: nat, width: nat): string
  {
    PadStart(Decimal(i * j), width)
  }

  /** The first `count` fields of line `i`, as the inner loop pushes them. */
  function Fields(i: nat, count: nat, width: nat): (r: seq<string>)
    ensures |r| == count
  {
    if count == 0 then [] else Fields(i, count - 1, width) + [Field(i, count, width)]
  }

  /** Field `k + 1` of the line sits at index `k`. */
  lemma {:induction false} FieldsAt(i: nat, count: nat, width: nat, k: nat)
    requires k < count
    ensures Fields(i, count, width)[k] == Field(i, k + 1, width)
  {
    if k < count - 1 {
      FieldsAt(i, count - 1, width, k);
    }
  }

  /** Line `i` of the grid: its `gridSize` fields separated by single spaces. */
  function Line(i: nat, gridSize: nat, width: nat): string
  {
    Join(Fields(i, gridSize, width), ' ')
  }

  /** The first `count` lines, as the outer loop pushes them. */
  function Rows(count: nat, gridSize: nat, width: nat): (r: seq<string>)
    ensures |r| == count
  {
    if count == 0 then [] else Rows(count - 1, gridSize, width) + [Line(count, gridSize, width)]
  }

  /** Line `k + 1` sits at index `k`. */
  lemma {:induction false} RowsAt(count: nat, gridSize: nat, width: nat, k: nat)
    requires k < count
    ensures Rows(count, gridSize, width)[k] == Line(k + 1, gridSize, width)
  {
    if k < count - 1 {
      RowsAt(count - 1, gridSize, width, k);
    }
  }

  /** The lines of the grid, line `i` at index `i - 1`. */
  function Lines(gridSize: nat): seq<string>
  {
    Rows(gridSize, gridSize, MaxDigits(gridSize))
  }

  /** The whole text: the lines separated by newlines; nothing for a size below 1. */
  function Grid(gridSize: int): string
  {
    if gridSize <= 0 then "" else Join(Lines(gridSize), '\n')
  }

  /** `createMultiplicationGrid`: two nested counting loops, then the joins. */
  method CreateMultiplicationGrid(gridSize: int) returns (text: string)
    ensures text == Grid(gridSize)
    ensures gridSize <= 0 ==> text == ""
  {
    var maxDigits := MaxDigits(gridSize);
    var grid: seq<string> := [];
    var i := 1;
    while i <= gridSize
      invariant 1 <= i
      invariant gridSize >= 1 ==> i <= gridSize + 1 && grid == Rows(i - 1, gridSize, maxDigits)
      invariant gridSize < 1 ==> i == 1 && grid == []
    {
      var row: seq<string> := [];
      var j := 1;
      while j <= gridSize
        invariant 1 <= j <= gridSize + 1
        invariant row == Fields(i, j - 1, maxDigits)
      {
        row := row + [Field(i, j, maxDigits)];
        j := j + 1;
      }
      grid := grid + [Join(row, ' ')];
      i := i + 1;
    }
    text := Join(grid, '\n');
  }

  /** Every field is exactly `MaxDigits` wide, since no product exceeds `gridSize * gridSize`. */
  lemma FieldWidth(i: nat, j: nat, gridSize: nat)
    requires 1 <= i <= gridSize && 1 <= j <= gridSize
    ensures |Field(i, j, MaxDigits(gridSize))| == MaxDigits(gridSize)
    ensures DecimalValue(Field(i, j, MaxDigits(gridSize))[MaxDigits(gridSize) - |Decimal(i * j)|..]) == i * j
  {
    ProductBound(i, j, gridSize);
    DecimalWidthMonotone(i * j, gridSize * gridSize);
    DecimalRoundTrip(i * j);
    PadStartShape(Decimal(i * j), MaxDigits(gridSize));
  }

  lemma ProductBound(i: nat, j: nat, n: nat)
    requires i <= n && j <= n
    ensures i * j <= n * n
  {
    assert i * j <= n * j;
    assert n * j <= n * n;
  }

  lemma PaddedDigitsAvoidNewline(n: nat, width: nat)
    ensures '\n' !in PadStart(Decimal(n), width)
  {
    var d := Decimal(n);
    var r := PadStart(d, width);
    PadStartShape(d, width);
    forall c | 0 <= c < |r|
      ensures r[c] != '\n'
    {
      if c >= |r| - |d| {
        assert r[c] == r[|r| - |d|..][c - (|r| - |d|)] == d[c - (|r| - |d|)];
      }
    }
  }

  /** Every line has `gridSize` fields of `w` columns and `gridSize - 1` separating spaces. */
  lemma LineLength(i: nat, gridSize: nat)
    requires 1 <= i <= gridSize
    ensures |Line(i, gridSize, MaxDigits(gridSize))| == gridSize * MaxDigits(gridSize) + gridSize - 1
    ensures '\n' !in Line(i, gridSize, MaxDigits(gridSize))
  {
    var w := MaxDigits(gridSize);
    var fields := Fields(i, gridSize, w);
    forall k | 0 <= k < gridSize
      ensures |fields[k]| == w && '\n' !in fields[k]
    {
      FieldsAt(i, gridSize, w, k);
      FieldWidth(i, k + 1, gridSize);
      PaddedDigitsAvoidNewline(i * (k + 1), w);
    }
    JoinLength(fields, ' ', w);
    JoinAvoids(fields, ' ', '\n');
  }

  /**
   * The text splits at its newlines into exactly `gridSize` lines, each of
   * length `gridSize * w + gridSize - 1`; there is no trailing newline.
   */
  lemma GridShape(gridSize: int)
    requires gridSize >= 1
    ensures Split(Grid(gridSize), '\n') == Lines(gridSize)
    ensures |Lines(gridSize)| == gridSize
    ensures forall k :: 0 <= k < gridSize ==>
      |Lines(gridSize)[k]| == gridSize * MaxDigits(gridSize) + gridSize - 1
  {
    var lines := Lines(gridSize);
    forall k | 0 <= k < gridSize
      ensures |lines[k]| == gridSize * MaxDigits(gridSize) + gridSize - 1 && '\n' !in lines[k]
    {
      RowsAt(gridSize, gridSize, MaxDigits(gridSize), k);
      LineLength(k + 1, gridSize);
    }
    SplitJoin(lines, '\n');
  }
}
