/** Reading operand tokens back. These parsers are not part of the disassembler;
    they are the partners of its operand rendering: each token is parsed back to
    the operand that produced it, so no two operands share a token and a
    rendered operand list can be taken apart again. */
module OperandDecode {
  import opened RustText
  import opened Brillig
  import opened DebugShow

  /** `Stack` is the stack pointer; `R<digits>` is the register of that index. */
  function ParseRegister(cfg: Config, s: string): (r: Option<RegisterIndex>)
    ensures s == "Stack" ==> r == Some(cfg.stackPointer)
    ensures r.Some? && s != "Stack" ==> |s| >= 2 && s[0] == 'R' && AllDigits(s[1..])
  {
    if s == "Stack" then Some(cfg.stackPointer)
    else if |s| >= 1 && s[0] == 'R' then
      match ParseDecimal(s[1..])
      case None => None
      case Some(n) => Some(RegisterIndex(n))
    else None
  }

  /** Every register token parses back to its register. */
  lemma RegisterRoundTrip(cfg: Config, r: RegisterIndex)
    ensures ParseRegister(cfg, RegisterToken(cfg, r)) == Some(r)
  {
    if r != cfg.stackPointer {
      var s := RegisterToken(cfg, r);
      assert s[1..] == Decimal(r.index);
      assert s != "Stack" by {
        assert s[0] == 'R';
      }
      DecimalRoundTrip(r.index);
    }
  }

  /** An operand: a plain register, or `<pointer>[0..<bound>]`. */
  function ParseOperand(cfg: Config, s: string): (x: Option<RegisterOrMemory>)
    ensures '[' !in s ==> x.None? || x.value.Register?
    ensures x.Some? && !x.value.Register? ==> '[' in s && |s| >= 1 && s[|s| - 1] == ']'
  {
    match IndexOf(s, '[')
    case None =>
      (match ParseRegister(cfg, s)
       case None => None
       case Some(r) => Some(Register(r)))
    case Some(k) =>
      var rest := s[k..];
      if |rest| < 5 || rest[..4] != "[0.." || rest[|rest| - 1] != ']' then None
      else ParseHeap(cfg, s[..k], rest[4..|rest| - 1])
  }

  /** The pointer and bound of a bracketed operand: a decimal bound marks a heap
      array, a register bound a heap vector. */
  function ParseHeap(cfg: Config, pointer: string, bound: string): (x: Option<RegisterOrMemory>)
    ensures x.Some? ==> !x.value.Register?
    ensures x.Some? && x.value.Array? <==> ParseRegister(cfg, pointer).Some? && ParseDecimal(bound).Some?
  {
    match ParseRegister(cfg, pointer)
    case None => None
    case Some(p) =>
      match ParseDecimal(bound)
      case Some(size) => Some(Array(HeapArray(p, size)))
      case None =>
        match ParseRegister(cfg, bound)
        case None => None
        case Some(size) => Some(Vector(HeapVector(p, size)))
  }

  /** A bracketed token `p[0..b]` is parsed from its pointer `p` and bound `b`. */
  lemma BracketSplit(cfg: Config, p: string, b: string)
    requires '[' !in p
    ensures ParseOperand(cfg, p + "[0.." + b + "]") == ParseHeap(cfg, p, b)
  {
    var s := p + "[0.." + b + "]";
    var t := "0.." + b + "]";
    assert s == p + ['['] + t;
    IndexOfAfter(p, '[', t);
    assert s[..|p|] == p;
    var rest := s[|p|..];
    assert rest == ['['] + t;
    assert |rest| == 5 + |b|;
    assert rest[..4] == "[0..";
    assert rest[|rest| - 1] == ']';
    assert rest[4..|rest| - 1] == b;
  }

  /** Every operand token parses back to its operand. */
  lemma OperandRoundTrip(cfg: Config, x: RegisterOrMemory)
    ensures ParseOperand(cfg, OperandToken(cfg, x)) == Some(x)
  {
    match x
    case Register(r) =>
      RegisterTokenAvoids(cfg, r);
      RegisterRoundTrip(cfg, r);
    case Array(a) =>
      RegisterTokenAvoids(cfg, a.pointer);
      BracketSplit(cfg, RegisterToken(cfg, a.pointer), Decimal(a.size));
      RegisterRoundTrip(cfg, a.pointer);
      DecimalRoundTrip(a.size);
    case Vector(v) =>
      var q := RegisterToken(cfg, v.size);
      RegisterTokenAvoids(cfg, v.pointer);
      BracketSplit(cfg, RegisterToken(cfg, v.pointer), q);
      RegisterRoundTrip(cfg, v.pointer);
      RegisterRoundTrip(cfg, v.size);
      RegisterTokenAlphabet(cfg, v.size);
      assert !AllDigits(q) by {
        assert !IsDigit(q[0]);
      }
  }

  /** Distinct operands never share a token. */
  lemma OperandTokenInjective(cfg: Config, x: RegisterOrMemory, y: RegisterOrMemory)
    ensures OperandToken(cfg, x) == OperandToken(cfg, y) <==> x == y
  {
    OperandRoundTrip(cfg, x);
    OperandRoundTrip(cfg, y);
  }

  /** Parses each part; fails if any part fails. */
  function ParseEach(cfg: Config, parts: seq<string>): (xs: Option<seq<RegisterOrMemory>>)
    ensures xs.Some? ==> |xs.value| == |parts|
  {
    if |parts| == 0 then Some([])
    else
      match (ParseOperand(cfg, parts[0]), ParseEach(cfg, parts[1..]))
      case (Some(x), Some(rest)) => Some([x] + rest)
      case _ => None
  }

  /** A rendered operand slice: empty text is the empty slice, otherwise the
      operands are separated by `, `. */
  function ParseOperandList(cfg: Config, s: string): (xs: Option<seq<RegisterOrMemory>>)
    ensures s == "" ==> xs == Some([])
    ensures s != "" && xs.Some? ==> |xs.value| == |SplitList(s)| >= 1
  {
    if s == "" then Some([]) else ParseEach(cfg, SplitList(s))
  }

  /** The `i`-th token of a rendered slice is the `i`-th operand's token. */
  lemma {:induction false} OperandTokensAt(cfg: Config, xs: seq<RegisterOrMemory>, i: nat)
    requires i < |xs|
    ensures OperandTokens(cfg, xs)[i] == OperandToken(cfg, xs[i])
  {
    if i > 0 {
      OperandTokensAt(cfg, xs[1..], i - 1);
    }
  }

  lemma {:induction false} ParseEachTokens(cfg: Config, xs: seq<RegisterOrMemory>)
    ensures ParseEach(cfg, OperandTokens(cfg, xs)) == Some(xs)
  {
    if |xs| > 0 {
      var ts := OperandTokens(cfg, xs);
      assert ts[0] == OperandToken(cfg, xs[0]) && ts[1..] == OperandTokens(cfg, xs[1..]);
      OperandRoundTrip(cfg, xs[0]);
      ParseEachTokens(cfg, xs[1..]);
      assert [xs[0]] + xs[1..] == xs;
    }
  }

  /** Every rendered operand slice parses back to the slice. */
  lemma OperandListRoundTrip(cfg: Config, xs: seq<RegisterOrMemory>)
    ensures ParseOperandList(cfg, OperandListToken(cfg, xs)) == Some(xs)
  {
    if |xs| > 0 {
      var ts := OperandTokens(cfg, xs);
      forall k | 0 <= k < |ts|
        ensures ',' !in ts[k]
      {
        OperandTokensAt(cfg, xs, k);
      }
      OperandTokensAt(cfg, xs, 0);
      SplitJoin(ts);
      ParseEachTokens(cfg, xs);
    }
  }

  /** Distinct operand slices never share a rendering. */
  lemma OperandListTokenInjective(cfg: Config, xs: seq<RegisterOrMemory>, ys: seq<RegisterOrMemory>)
    ensures OperandListToken(cfg, xs) == OperandListToken(cfg, ys) <==> xs == ys
  {
    OperandListRoundTrip(cfg, xs);
    OperandListRoundTrip(cfg, ys);
  }
}
