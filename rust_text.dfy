/** The pieces of Rust's string machinery that the Brillig disassembler relies on,
    written out: integer `to_string`, `str::ends_with`, `[String]::join` and the
    `format!` macro restricted to format strings whose only directives are `{}`. */
module RustText {

  datatype Option<T> = None | Some(value: T)

  // ---------------------------------------------------------------------------
  // Decimal rendering of unsigned integers (`usize::to_string`, `u32`'s Display)
  // ---------------------------------------------------------------------------

  predicate IsDigit(c: char) {
    '0' <= c <= '9'
  }

  predicate AllDigits(s: string) {
    forall i :: 0 <= i < |s| ==> IsDigit(s[i])
  }

  function DigitChar(d: nat): (c: char)
    requires d < 10
    ensures IsDigit(c) && c as int - '0' as int == d
  {
    ('0' as int + d) as char
  }

  function DigitValue(c: char): (d: nat)
    requires IsDigit(c)
    ensures d < 10 && DigitChar(d) == c
  {
    c as int - '0' as int
  }

  /** The shortest decimal numeral of `n`: at least one digit, never a leading zero. */
  function Decimal(n: nat): (s: string)
    ensures |s| >= 1 && AllDigits(s)
    ensures s[0] == '0' ==> n == 0
    decreases n
  {
    if n < 10 then [DigitChar(n)] else Decimal(n / 10) + [DigitChar(n % 10)]
  }

  /** Reads a non-empty string of digits as a number (leading zeros accepted). */
  function ParseDecimal(s: string): (r: Option<nat>)
    ensures r.Some? <==> |s| >= 1 && AllDigits(s)
    decreases |s|
  {
    if |s| == 0 || !IsDigit(s[|s| - 1]) then None
    else if |s| == 1 then Some(DigitValue(s[0]))
    else
      match ParseDecimal(s[..|s| - 1])
      case None => None
      case Some(m) => Some(10 * m + DigitValue(s[|s| - 1]))
  }

  lemma {:induction false} DecimalRoundTrip(n: nat)
    ensures ParseDecimal(Decimal(n)) == Some(n)
    decreases n
  {
    if n >= 10 {
      var s := Decimal(n);
      assert s[..|s| - 1] == Decimal(n / 10);
      DecimalRoundTrip(n / 10);
    }
  }

  /** Distinct numbers have distinct numerals. */
  lemma DecimalInjective(m: nat, n: nat)
    ensures Decimal(m) == Decimal(n) <==> m == n
  {
    DecimalRoundTrip(m);
    DecimalRoundTrip(n);
  }

  // ---------------------------------------------------------------------------
  // Searching and suffixes
  // ---------------------------------------------------------------------------

  /** `str::find` for a single character: the first position holding `c`. */
  function IndexOf(s: string, c: char): (r: Option<nat>)
    ensures r.None? <==> c !in s
    ensures r.Some? ==> r.value < |s| && s[r.value] == c
    ensures r.Some? ==> forall j :: 0 <= j < r.value ==> s[j] != c
    decreases |s|
  {
    if |s| == 0 then None
    else if s[0] == c then Some(0)
    else
      match IndexOf(s[1..], c)
      case None => None
      case Some(i) => Some(i + 1)
  }

  /** The first `c` in `a + [c] + b` is the one after `a` when `a` holds none. */
  lemma IndexOfAfter(a: string, c: char, b: string)
    requires c !in a
    ensures IndexOf(a + [c] + b, c) == Some(|a|)
  {
    var s := a + [c] + b;
    assert forall j :: 0 <= j < |a| ==> s[j] == a[j];
    assert s[|a|] == c;
  }

  /** `str::ends_with`. */
  predicate EndsWith(s: string, suffix: string) {
    |suffix| <= |s| && s[|s| - |suffix|..] == suffix
  }

  lemma EndsWithAppended(prefix: string, suffix: string)
    ensures EndsWith(prefix + suffix, suffix)
  {
    var s := prefix + suffix;
    assert s[|s| - |suffix|..] == suffix;
  }

  // ---------------------------------------------------------------------------
  // `[String]::join`
  // ---------------------------------------------------------------------------

  /** The parts with `sep` between each neighbouring pair. */
  function Join(parts: seq<string>, sep: string): (r: string)
    ensures parts == [] ==> r == ""
    ensures |parts| == 1 ==> r == parts[0]
    ensures |parts| >= 1 ==> |r| >= |parts[0]|
  {
    if |parts| == 0 then ""
    else if |parts| == 1 then parts[0]
    else parts[0] + sep + Join(parts[1..], sep)
  }

  /** A joined string holds a character only if a part or the separator does. */
  lemma {:induction false} JoinAvoids(c: char, parts: seq<string>, sep: string)
    requires c !in sep
    requires forall k :: 0 <= k < |parts| ==> c !in parts[k]
    ensures c !in Join(parts, sep)
  {
    if |parts| >= 2 {
      JoinAvoids(c, parts[1..], sep);
    }
  }

  /** Cuts a string at every `,` and drops the space that follows each cut. */
  function SplitList(s: string): (parts: seq<string>)
    ensures |parts| >= 1
    decreases |s|
  {
    match IndexOf(s, ',')
    case None => [s]
    case Some(i) => [s[..i]] + SplitList(if i + 2 <= |s| then s[i + 2..] else "")
  }

  /** A comma-free head followed by ", " is split off as the first part. */
  lemma SplitListCons(head: string, tail: string)
    requires ',' !in head
    ensures SplitList(head + ", " + tail) == [head] + SplitList(tail)
  {
    var s := head + ", " + tail;
    assert s == head + [','] + (" " + tail);
    IndexOfAfter(head, ',', " " + tail);
    assert s[..|head|] == head;
    assert s[|head| + 2..] == tail;
  }

  /** Joining with ", " loses nothing when no part contains a comma. */
  lemma {:induction false} SplitJoin(parts: seq<string>)
    requires |parts| >= 1
    requires forall k :: 0 <= k < |parts| ==> ',' !in parts[k]
    ensures SplitList(Join(parts, ", ")) == parts
  {
    if |parts| >= 2 {
      SplitListCons(parts[0], Join(parts[1..], ", "));
      SplitJoin(parts[1..]);
      assert [parts[0]] + parts[1..] == parts;
    }
  }

  // ---------------------------------------------------------------------------
  // `format!` with `{}` directives
  // ---------------------------------------------------------------------------

  /** Number of `{}` directives in a format string. */
  function Holes(t: string): nat
    decreases |t|
  {
    if |t| < 2 then 0
    else if t[0] == '{' && t[1] == '}' then 1 + Holes(t[2..])
    else Holes(t[1..])
  }

  function TotalLength(args: seq<string>): nat {
    if |args| == 0 then 0 else |args[0]| + TotalLength(args[1..])
  }

  /** `format!(t, args..)`: each `{}` takes the next argument's text, every other
      character is copied. Rust refuses at compile time a call whose argument
      count differs from the number of directives. */
  function Format(t: string, args: seq<string>): (r: string)
    requires Holes(t) == |args|
    ensures |r| + 2 * |args| == |t| + TotalLength(args)
    decreases |t|
  {
    if |t| < 2 then t
    else if t[0] == '{' && t[1] == '}' then args[0] + Format(t[2..], args[1..])
    else [t[0]] + Format(t[1..], args)
  }

  /** Literal text of a format string: no brace, so no directive and no escape. */
  predicate BraceFree(s: string) {
    '{' !in s && '}' !in s
  }

  /** A format string given by the literal pieces around its directives:
      `lits[0] {} lits[1] {} .. lits[n]`. */
  function Template(lits: seq<string>): string
    requires |lits| >= 1
  {
    if |lits| == 1 then lits[0] else lits[0] + ("{}" + Template(lits[1..]))
  }

  /** The pieces with the arguments placed between them. */
  function Interleave(lits: seq<string>, args: seq<string>): string
    requires |lits| == |args| + 1
  {
    if |args| == 0 then lits[0] else lits[0] + args[0] + Interleave(lits[1..], args[1..])
  }

  lemma {:induction false} HolesLiteral(lit: string, rest: string)
    requires BraceFree(lit)
    ensures Holes(lit + rest) == Holes(rest)
    decreases |lit|
  {
    if |lit| > 0 {
      var t := lit + rest;
      assert t[0] == lit[0];
      if |t| >= 2 {
        assert t[1..] == lit[1..] + rest;
        HolesLiteral(lit[1..], rest);
      } else {
        assert lit + rest == lit && rest == "";
      }
    } else {
      assert lit + rest == rest;
    }
  }

  lemma {:induction false} FormatLiteral(lit: string, rest: string, args: seq<string>)
    requires BraceFree(lit) && Holes(rest) == |args|
    ensures Holes(lit + rest) == |args|
    ensures Format(lit + rest, args) == lit + Format(rest, args)
    decreases |lit|
  {
    HolesLiteral(lit, rest);
    var t := lit + rest;
    if |lit| == 0 {
      assert t == rest;
    } else if |t| < 2 {
      assert rest == "" && t == lit;
    } else {
      assert t[0] == lit[0] != '{';
      assert t[1..] == lit[1..] + rest;
      assert BraceFree(lit[1..]);
      FormatLiteral(lit[1..], rest, args);
      assert Format(t, args) == [lit[0]] + (lit[1..] + Format(rest, args));
      assert [lit[0]] + lit[1..] == lit;
    }
  }

  lemma FormatDirective(rest: string, args: seq<string>)
    requires |args| >= 1 && Holes(rest) == |args| - 1
    ensures Holes("{}" + rest) == |args|
    ensures Format("{}" + rest, args) == args[0] + Format(rest, args[1..])
  {
    assert ("{}" + rest)[2..] == rest;
  }

  /** Formatting the template rebuilt from its pieces interleaves pieces and arguments. */
  lemma {:induction false} FormatTemplate(lits: seq<string>, args: seq<string>)
    requires |lits| == |args| + 1
    requires forall k :: 0 <= k < |lits| ==> BraceFree(lits[k])
    ensures Holes(Template(lits)) == |args|
    ensures Format(Template(lits), args) == Interleave(lits, args)
    decreases |args|
  {
    if |args| == 0 {
      FormatLiteral(lits[0], "", args);
      assert lits[0] + "" == lits[0];
    } else {
      var rest := Template(lits[1..]);
      FormatTemplate(lits[1..], args[1..]);
      FormatDirective(rest, args);
      FormatLiteral(lits[0], "{}" + rest, args);
    }
  }

  /** Every piece is literal text. */
  predicate LiteralPieces(lits: seq<string>) {
    forall k :: 0 <= k < |lits| ==> BraceFree(lits[k])
  }

  lemma FormatMatchesInterleave(lits: seq<string>, args: seq<string>)
    requires |lits| == |args| + 1
    ensures LiteralPieces(lits) ==>
              Holes(Template(lits)) == |args| && Format(Template(lits), args) == Interleave(lits, args)
  {
    if LiteralPieces(lits) {
      FormatTemplate(lits, args);
    }
  }

  /** `format!` on the format string whose literal pieces are `lits`: the
      arguments placed between the pieces, which is what `Format` makes of the
      format string itself. */
  function FormatPieces(lits: seq<string>, args: seq<string>): (r: string)
    requires |lits| == |args| + 1
    ensures LiteralPieces(lits) ==> Holes(Template(lits)) == |args| && r == Format(Template(lits), args)
  {
    FormatMatchesInterleave(lits, args);
    Interleave(lits, args)
  }

  /** A template is its first piece, a directive, then the template of the rest. */
  lemma TemplateCons(lit: string, lits: seq<string>)
    requires |lits| >= 1
    ensures Template([lit] + lits) == lit + "{}" + Template(lits)
  {
    assert ([lit] + lits)[1..] == lits;
  }

  // Piece lists of two to six pieces are literal when each piece is.

  lemma Literal2(l0: string, l1: string)
    requires BraceFree(l0) && BraceFree(l1)
    ensures LiteralPieces([l0, l1])
  {
  }

  lemma Literal3(l0: string, l1: string, l2: string)
    requires BraceFree(l0) && BraceFree(l1) && BraceFree(l2)
    ensures LiteralPieces([l0, l1, l2])
  {
  }

  lemma Literal4(l0: string, l1: string, l2: string, l3: string)
    requires BraceFree(l0) && BraceFree(l1) && BraceFree(l2) && BraceFree(l3)
    ensures LiteralPieces([l0, l1, l2, l3])
  {
  }

  lemma Literal5(l0: string, l1: string, l2: string, l3: string, l4: string)
    requires BraceFree(l0) && BraceFree(l1) && BraceFree(l2) && BraceFree(l3) && BraceFree(l4)
    ensures LiteralPieces([l0, l1, l2, l3, l4])
  {
  }

  lemma Literal6(l0: string, l1: string, l2: string, l3: string, l4: string, l5: string)
    requires BraceFree(l0) && BraceFree(l1) && BraceFree(l2) && BraceFree(l3) && BraceFree(l4) && BraceFree(l5)
    ensures LiteralPieces([l0, l1, l2, l3, l4, l5])
  {
  }

  // Interleavings of one to five arguments, spelled out.

  lemma Interleave1(l0: string, l1: string, a0: string)
    ensures Interleave([l0, l1], [a0]) == l0 + a0 + l1
    ensures l1 == "" ==> Interleave([l0, l1], [a0]) == l0 + a0
  {
    assert l1 == "" ==> l0 + a0 + l1 == l0 + a0;
    assert [l0, l1][1..] == [l1];
  }

  lemma Interleave2(l0: string, l1: string, l2: string, a0: string, a1: string)
    ensures Interleave([l0, l1, l2], [a0, a1]) == l0 + a0 + l1 + a1 + l2
    ensures l2 == "" ==> Interleave([l0, l1, l2], [a0, a1]) == l0 + a0 + l1 + a1
  {
    assert l2 == "" ==> l0 + a0 + l1 + a1 + l2 == l0 + a0 + l1 + a1;
    assert [l0, l1, l2][1..] == [l1, l2];
    assert [a0, a1][1..] == [a1];
    Interleave1(l1, l2, a1);
  }

  lemma Interleave3(l0: string, l1: string, l2: string, l3: string, a0: string, a1: string, a2: string)
    ensures Interleave([l0, l1, l2, l3], [a0, a1, a2]) == l0 + a0 + l1 + a1 + l2 + a2 + l3
    ensures l3 == "" ==> Interleave([l0, l1, l2, l3], [a0, a1, a2]) == l0 + a0 + l1 + a1 + l2 + a2
  {
    assert l3 == "" ==> l0 + a0 + l1 + a1 + l2 + a2 + l3 == l0 + a0 + l1 + a1 + l2 + a2;
    assert [l0, l1, l2, l3][1..] == [l1, l2, l3];
    assert [a0, a1, a2][1..] == [a1, a2];
    Interleave2(l1, l2, l3, a1, a2);
  }

  lemma Interleave4(l0: string, l1: string, l2: string, l3: string, l4: string,
                    a0: string, a1: string, a2: string, a3: string)
    ensures Interleave([l0, l1, l2, l3, l4], [a0, a1, a2, a3])
         == l0 + a0 + l1 + a1 + l2 + a2 + l3 + a3 + l4
    ensures l4 == "" ==>
              Interleave([l0, l1, l2, l3, l4], [a0, a1, a2, a3]) == l0 + a0 + l1 + a1 + l2 + a2 + l3 + a3
  {
    assert l4 == "" ==> l0 + a0 + l1 + a1 + l2 + a2 + l3 + a3 + l4 == l0 + a0 + l1 + a1 + l2 + a2 + l3 + a3;
    assert [l0, l1, l2, l3, l4][1..] == [l1, l2, l3, l4];
    assert [a0, a1, a2, a3][1..] == [a1, a2, a3];
    Interleave3(l1, l2, l3, l4, a1, a2, a3);
  }

  lemma Interleave5(l0: string, l1: string, l2: string, l3: string, l4: string, l5: string,
                    a0: string, a1: string, a2: string, a3: string, a4: string)
    ensures Interleave([l0, l1, l2, l3, l4, l5], [a0, a1, a2, a3, a4])
         == l0 + a0 + l1 + a1 + l2 + a2 + l3 + a3 + l4 + a4 + l5
    ensures l5 == "" ==>
              Interleave([l0, l1, l2, l3, l4, l5], [a0, a1, a2, a3, a4])
              == l0 + a0 + l1 + a1 + l2 + a2 + l3 + a3 + l4 + a4
  {
    assert l5 == "" ==> l0 + a0 + l1 + a1 + l2 + a2 + l3 + a3 + l4 + a4 + l5 == l0 + a0 + l1 + a1 + l2 + a2 + l3 + a3 + l4 + a4;
    assert [l0, l1, l2, l3, l4, l5][1..] == [l1, l2, l3, l4, l5];
    assert [a0, a1, a2, a3, a4][1..] == [a1, a2, a3, a4];
    Interleave4(l1, l2, l3, l4, l5, a1, a2, a3, a4);
  }

  /** A formatted line holds a character only if the format string or an argument does. */
  lemma {:induction false} FormatAvoids(c: char, lits: seq<string>, args: seq<string>)
    requires |lits| == |args| + 1
    ensures (forall k :: 0 <= k < |lits| ==> c !in lits[k])
            && (forall k :: 0 <= k < |args| ==> c !in args[k])
            ==> c !in Interleave(lits, args)
    decreases |args|
  {
    if |args| > 0 {
      FormatAvoids(c, lits[1..], args[1..]);
    }
  }
}
