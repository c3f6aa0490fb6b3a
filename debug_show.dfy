/** The Brillig debug disassembler: every operand, operator and instruction is
    rendered as text, and each entry point yields at most one trace line.
    The trace switch `ENABLE_DEBUG_TRACE` is the parameter `enabled`; the
    addressing bit size and the stack-pointer register come in a `Config`. */
module DebugShow {
  import opened RustText
  import opened Brillig

  // ---------------------------------------------------------------------------
  // Operand tokens
  // ---------------------------------------------------------------------------

  predicate IsLetter(c: char) {
    'A' <= c <= 'Z' || 'a' <= c <= 'z'
  }

  /** Letters and digits only. */
  predicate Alphanumeric(s: string) {
    forall i :: 0 <= i < |s| ==> IsLetter(s[i]) || IsDigit(s[i])
  }

  /** A register: `Stack` for the stack pointer, `R<index>` for any other. */
  function RegisterToken(cfg: Config, r: RegisterIndex): (s: string)
    ensures s == "Stack" <==> r == cfg.stackPointer
    ensures r != cfg.stackPointer ==> s == "R" + Decimal(r.index)
  {
    if r == cfg.stackPointer then "Stack"
    else
      var digits := Decimal(r.index);
      Interleave1("R", "", digits);
      assert ("R" + digits)[0] == 'R';
      FormatPieces(["R", ""], [digits])
  }

  /** Register tokens start with a letter and hold only letters and digits. */
  lemma RegisterTokenAlphabet(cfg: Config, r: RegisterIndex)
    ensures |RegisterToken(cfg, r)| >= 1 && IsLetter(RegisterToken(cfg, r)[0])
    ensures Alphanumeric(RegisterToken(cfg, r))
  {
    if r != cfg.stackPointer {
      assert Alphanumeric(Decimal(r.index));
    }
  }

  /** A heap array: the pointer's token, `[0..`, the static size in decimal, `]`. */
  function HeapArrayToken(cfg: Config, a: HeapArray): (s: string)
    ensures s == RegisterToken(cfg, a.pointer) + "[0.." + Decimal(a.size) + "]"
  {
    var pointer, size := RegisterToken(cfg, a.pointer), Decimal(a.size);
    Interleave2("", "[0..", "]", pointer, size);
    FormatPieces(["", "[0..", "]"], [pointer, size])
  }

  /** A heap vector: as a heap array, but the bound is the size register's token. */
  function HeapVectorToken(cfg: Config, v: HeapVector): (s: string)
    ensures s == RegisterToken(cfg, v.pointer) + "[0.." + RegisterToken(cfg, v.size) + "]"
  {
    var pointer, size := RegisterToken(cfg, v.pointer), RegisterToken(cfg, v.size);
    Interleave2("", "[0..", "]", pointer, size);
    FormatPieces(["", "[0..", "]"], [pointer, size])
  }

  lemma AlphanumericAvoids(s: string, c: char)
    requires Alphanumeric(s) && !IsLetter(c) && !IsDigit(c)
    ensures c !in s
  {
  }

  /** A register token holds no separator: no comma, no line break, no `[`. */
  lemma RegisterTokenAvoids(cfg: Config, r: RegisterIndex)
    ensures ',' !in RegisterToken(cfg, r) && '\n' !in RegisterToken(cfg, r) && '[' !in RegisterToken(cfg, r)
  {
    RegisterTokenAlphabet(cfg, r);
    AlphanumericAvoids(RegisterToken(cfg, r), ',');
    AlphanumericAvoids(RegisterToken(cfg, r), '\n');
    AlphanumericAvoids(RegisterToken(cfg, r), '[');
  }

  /** `RegisterOrMemory`: each case is rendered by its own rule. The token is
      never empty and holds no comma and no line break, so a slice of them can be
      joined and split again; a `[` marks exactly the heap operands. */
  function OperandToken(cfg: Config, x: RegisterOrMemory): (s: string)
    ensures |s| >= 1
    ensures ',' !in s && '\n' !in s
    ensures x.Register? <==> '[' !in s
  {
    match x
    case Register(r) =>
      RegisterTokenAlphabet(cfg, r);
      RegisterTokenAvoids(cfg, r);
      RegisterToken(cfg, r)
    case Array(a) =>
      var p, n := RegisterToken(cfg, a.pointer), Decimal(a.size);
      RegisterTokenAvoids(cfg, a.pointer);
      assert Alphanumeric(n);
      AlphanumericAvoids(n, ',');
      AlphanumericAvoids(n, '\n');
      assert HeapArrayToken(cfg, a)[|p|] == '[';
      HeapArrayToken(cfg, a)
    case Vector(v) =>
      var p := RegisterToken(cfg, v.pointer);
      RegisterTokenAvoids(cfg, v.pointer);
      RegisterTokenAvoids(cfg, v.size);
      assert HeapVectorToken(cfg, v)[|p|] == '[';
      HeapVectorToken(cfg, v)
  }

  function OperandTokens(cfg: Config, xs: seq<RegisterOrMemory>): (ts: seq<string>)
    ensures |ts| == |xs|
  {
    if |xs| == 0 then [] else [OperandToken(cfg, xs[0])] + OperandTokens(cfg, xs[1..])
  }

  function RegisterTokens(cfg: Config, rs: seq<RegisterIndex>): (ts: seq<string>)
    ensures |ts| == |rs|
  {
    if |rs| == 0 then [] else [RegisterToken(cfg, rs[0])] + RegisterTokens(cfg, rs[1..])
  }

  /** The `i`-th token of a rendered register list is the `i`-th register's token. */
  lemma {:induction false} RegisterTokensAt(cfg: Config, rs: seq<RegisterIndex>, i: nat)
    requires i < |rs|
    ensures RegisterTokens(cfg, rs)[i] == RegisterToken(cfg, rs[i])
  {
    if i > 0 {
      RegisterTokensAt(cfg, rs[1..], i - 1);
    }
  }

  /** A slice of operands: the element tokens joined by ", ". */
  function OperandListToken(cfg: Config, xs: seq<RegisterOrMemory>): (s: string)
    ensures xs == [] ==> s == ""
    ensures |xs| == 1 ==> s == OperandToken(cfg, xs[0])
  {
    Join(OperandTokens(cfg, xs), ", ")
  }

  // ---------------------------------------------------------------------------
  // Operator tokens
  // ---------------------------------------------------------------------------

  /** Field operators: each token carries the `f` prefix. */
  function FieldOpToken(op: BinaryFieldOp): (s: string)
    ensures |s| >= 2 && s[0] == 'f' && ':' !in s
  {
    match op
    case FieldAdd => "f+"
    case FieldSub => "f-"
    case FieldMul => "f*"
    case FieldDiv => "f/"
    case FieldEquals => "f=="
  }

  /** Integer operators: symbols only, so never an `f`, an `i` or a `%` up front. */
  function IntOpToken(op: BinaryIntOp): (s: string)
    ensures |s| >= 1 && s[0] !in "fi%" && ':' !in s
  {
    match op
    case Add => "+"
    case Sub => "-"
    case Mul => "*"
    case Equals => "=="
    case SignedDiv => "/"
    case UnsignedDiv => "//"
    case LessThan => "<"
    case LessThanEquals => "<="
    case And => "&&"
    case Or => "||"
    case Xor => "^"
    case Shl => "<<"
    case Shr => ">>"
  }

  /** Distinct operators get distinct tokens, and a field token never equals an
      integer token. */
  lemma OperatorTokensInjective(f: BinaryFieldOp, g: BinaryFieldOp, o: BinaryIntOp, p: BinaryIntOp)
    ensures FieldOpToken(f) == FieldOpToken(g) <==> f == g
    ensures IntOpToken(o) == IntOpToken(p) <==> o == p
    ensures FieldOpToken(f) != IntOpToken(o)
  {
    assert FieldOpToken(f)[0] != IntOpToken(o)[0];
  }

  /** The remainder symbol: `%` when signed, `%%` when unsigned. */
  function ModuloSymbol(isSigned: bool): (s: string)
    ensures |s| == (if isSigned then 1 else 2)
    ensures forall i :: 0 <= i < |s| ==> s[i] == '%'
  {
    if isSigned then "%" else "%%"
  }

  /** `BrilligBinaryOp`: an integer or remainder operator shows its width only
      when that width is below the addressing bit size. */
  function BinaryOpToken(cfg: Config, op: BrilligBinaryOp): (s: string)
    ensures op.Field? ==> s == FieldOpToken(op.fieldOp)
    ensures op.Integer? ==> s == (if op.bitSize >= cfg.addressingBitSize then IntOpToken(op.intOp)
                                  else "i" + Decimal(op.bitSize) + "::" + IntOpToken(op.intOp))
    ensures op.Modulo? ==> s == (if op.bitSize >= cfg.addressingBitSize then ModuloSymbol(op.isSignedInteger)
                                 else ModuloSymbol(op.isSignedInteger) + ":" + Decimal(op.bitSize))
  {
    match op
    case Field(f) => FieldOpToken(f)
    case Integer(o, w) =>
      if w >= cfg.addressingBitSize then IntOpToken(o)
      else
        var width, symbol := Decimal(w), IntOpToken(o);
        Interleave2("i", "::", "", width, symbol);
        FormatPieces(["i", "::", ""], [width, symbol])
    case Modulo(signed, w) =>
      var symbol := ModuloSymbol(signed);
      if w >= cfg.addressingBitSize then symbol
      else
        var width := Decimal(w);
        Interleave2("", ":", "", symbol, width);
        FormatPieces(["", ":", ""], [symbol, width])
  }

  /** A width tag (a `:`) appears exactly on integer and remainder operators
      narrower than the addressing bit size. */
  lemma WidthTagShown(cfg: Config, op: BrilligBinaryOp)
    ensures ':' in BinaryOpToken(cfg, op) <==> !op.Field? && op.bitSize < cfg.addressingBitSize
  {
    var s := BinaryOpToken(cfg, op);
    match op
    case Field(_) =>
    case Integer(o, w) =>
      if w < cfg.addressingBitSize {
        assert s[1 + |Decimal(w)|] == ':';
      }
    case Modulo(signed, w) =>
      if w < cfg.addressingBitSize {
        assert s[|ModuloSymbol(signed)|] == ':';
      }
  }

  /** Two operators print alike when they agree on everything but a width that
      both have at or above the addressing bit size. */
  predicate ShownAlike(cfg: Config, a: BrilligBinaryOp, b: BrilligBinaryOp) {
    match (a, b)
    case (Field(f), Field(g)) => f == g
    case (Integer(o, v), Integer(p, w)) =>
      o == p && (v == w || (v >= cfg.addressingBitSize && w >= cfg.addressingBitSize))
    case (Modulo(s, v), Modulo(t, w)) =>
      s == t && (v == w || (v >= cfg.addressingBitSize && w >= cfg.addressingBitSize))
    case _ => false
  }

  /** Splitting `a + [c] + b` at its first `c` recovers `a` and `b`. */
  lemma SplitAtFirst(a: string, b: string, a': string, b': string, c: char)
    requires c !in a && c !in a'
    requires a + [c] + b == a' + [c] + b'
    ensures a == a' && b == b'
  {
    IndexOfAfter(a, c, b);
    IndexOfAfter(a', c, b');
    var s := a + [c] + b;
    assert a == s[..|a|] && a' == s[..|a'|];
    assert b == s[|a| + 1..] && b' == s[|a'| + 1..];
  }

  lemma DecimalAvoids(n: nat, c: char)
    requires !IsDigit(c)
    ensures c !in Decimal(n)
  {
  }

  /** The shape of a narrow integer token, `i<width>::<op>`, splits back into
      its width and its operator when the width holds no colon. */
  lemma WidthTaggedSplit(d: string, e: string, d': string, e': string)
    requires ':' !in d && ':' !in d'
    requires "i" + d + "::" + e == "i" + d' + "::" + e'
    ensures d == d' && e == e'
  {
    var x, y := "i" + d + "::" + e, "i" + d' + "::" + e';
    assert d + [':'] + (":" + e) == x[1..];
    assert d' + [':'] + (":" + e') == y[1..];
    SplitAtFirst(d, ":" + e, d', ":" + e', ':');
    assert e == (":" + e)[1..] && e' == (":" + e')[1..];
  }

  lemma NarrowIntegerTokenInjective(v: nat, w: nat, o: BinaryIntOp, p: BinaryIntOp)
    requires "i" + Decimal(v) + "::" + IntOpToken(o) == "i" + Decimal(w) + "::" + IntOpToken(p)
    ensures v == w && o == p
  {
    DecimalAvoids(v, ':');
    DecimalAvoids(w, ':');
    WidthTaggedSplit(Decimal(v), IntOpToken(o), Decimal(w), IntOpToken(p));
    DecimalInjective(v, w);
    OperatorTokensInjective(FieldAdd, FieldAdd, o, p);
  }

  lemma NarrowModuloTokenInjective(v: nat, w: nat, s: bool, t: bool)
    requires ModuloSymbol(s) + ":" + Decimal(v) == ModuloSymbol(t) + ":" + Decimal(w)
    ensures v == w && s == t
  {
    SplitAtFirst(ModuloSymbol(s), Decimal(v), ModuloSymbol(t), Decimal(w), ':');
    DecimalInjective(v, w);
  }

  /** An integer operator and a remainder operator never render alike: their
      first characters differ whether or not a width tag is shown. */
  lemma IntegerModuloDistinct(cfg: Config, o: BinaryIntOp, v: nat, x: bool, w: nat)
    ensures BinaryOpToken(cfg, Integer(o, v)) != BinaryOpToken(cfg, Modulo(x, w))
  {
    var s, t := BinaryOpToken(cfg, Integer(o, v)), BinaryOpToken(cfg, Modulo(x, w));
    WidthTagShown(cfg, Integer(o, v));
    WidthTagShown(cfg, Modulo(x, w));
    if v < cfg.addressingBitSize && w < cfg.addressingBitSize {
      assert s[0] == 'i' && t[0] == '%';
    } else if v >= cfg.addressingBitSize && w >= cfg.addressingBitSize {
      assert s[0] != '%' && t[0] == '%';
    }
  }

  /** The operator token loses exactly the widths at or above the addressing bit
      size: two operators get the same token if and only if they print alike. */
  lemma BinaryOpTokenInjective(cfg: Config, a: BrilligBinaryOp, b: BrilligBinaryOp)
    ensures BinaryOpToken(cfg, a) == BinaryOpToken(cfg, b) <==> ShownAlike(cfg, a, b)
  {
    var s, t := BinaryOpToken(cfg, a), BinaryOpToken(cfg, b);
    WidthTagShown(cfg, a);
    WidthTagShown(cfg, b);
    if s == t {
      match (a, b)
      case (Field(f), Field(g)) =>
        OperatorTokensInjective(f, g, Add, Add);
      case (Integer(o, v), Integer(p, w)) =>
        if v < cfg.addressingBitSize {
          NarrowIntegerTokenInjective(v, w, o, p);
        } else {
          OperatorTokensInjective(FieldAdd, FieldAdd, o, p);
        }
      case (Modulo(x, v), Modulo(y, w)) =>
        if v < cfg.addressingBitSize {
          NarrowModuloTokenInjective(v, w, x, y);
        } else {
          assert |ModuloSymbol(x)| == |ModuloSymbol(y)|;
        }
      case (Field(f), Integer(o, w)) =>
        if w >= cfg.addressingBitSize {
          OperatorTokensInjective(f, f, o, o);
        }
      case (Integer(o, v), Field(g)) =>
        if v >= cfg.addressingBitSize {
          OperatorTokensInjective(g, g, o, o);
        }
      case (Field(_), Modulo(_, _)) =>
      case (Modulo(_, _), Field(_)) =>
      case (Integer(o, v), Modulo(x, w)) =>
        IntegerModuloDistinct(cfg, o, v, x, w);
      case (Modulo(x, v), Integer(o, w)) =>
        IntegerModuloDistinct(cfg, o, w, x, v);
    }
  }

  // ---------------------------------------------------------------------------
  // `debug_println!`
  // ---------------------------------------------------------------------------

  /** The formatting arm of `debug_println!`: with the trace on, the line that
      `format!` makes of the format string whose literal pieces are `lits`;
      with it off, no line. */
  function DebugPrintln(enabled: bool, lits: seq<string>, args: seq<string>): (line: Option<string>)
    requires |lits| == |args| + 1 && LiteralPieces(lits)
    ensures line.Some? <==> enabled
    ensures enabled ==> Holes(Template(lits)) == |args| && line.value == Format(Template(lits), args)
    ensures enabled ==> line.value == Interleave(lits, args)
    ensures enabled && (forall k :: 0 <= k < |lits| ==> '\n' !in lits[k])
            && (forall k :: 0 <= k < |args| ==> '\n' !in args[k])
            ==> '\n' !in line.value
  {
    if enabled then
      FormatAvoids('\n', lits, args);
      FormatTemplate(lits, args);
      Some(Interleave(lits, args))
    else None
  }

  /** The literal arm of `debug_println!`: prints the text through `"{}"`. */
  function DebugPrintlnLiteral(enabled: bool, text: string): (line: Option<string>)
    ensures line == if enabled then Some(text) else None
    ensures enabled ==> Holes("{}") == 1 && line.value == Format("{}", [text])
  {
    Interleave1("", "", text);
    assert "" + text + "" == text;
    LiteralArmPieces();
    LiteralArmFormat();
    DebugPrintln(enabled, ["", ""], [text])
  }

  // ---------------------------------------------------------------------------
  // The format strings of the entry points, as literal pieces
  // ---------------------------------------------------------------------------

  // Each `...Pieces` lemma shows that a piece list holds no brace, and each
  // `...Format` lemma that the pieces, rejoined by `{}`, spell the format
  // string the source passes to `debug_println!`.

  lemma LiteralArmPieces()
    ensures LiteralPieces(["", ""])
  {
    Literal2("", "");
  }

  lemma LiteralArmFormat()
    ensures Template(["", ""]) == "{}"
  {
    TemplateCons("", [""]);
  }

  lemma ConstrainPieces()
    ensures LiteralPieces(["  ASSERT ", " != 0"])
  {
    Literal2("  ASSERT ", " != 0");
  }

  lemma ConstrainFormat()
    ensures Template(["  ASSERT ", " != 0"]) == "  ASSERT {} != 0"
  {
    TemplateCons("  ASSERT ", [" != 0"]);
  }

  lemma ReturnPieces()
    ensures LiteralPieces(["  // return ", ";"])
  {
    Literal2("  // return ", ";");
  }

  lemma ReturnFormat()
    ensures Template(["  // return ", ";"]) == "  // return {};"
  {
    TemplateCons("  // return ", [";"]);
  }

  lemma MovPieces()
    ensures LiteralPieces(["  MOV ", ", ", ""])
  {
    Literal3("  MOV ", ", ", "");
  }

  lemma MovFormat()
    ensures Template(["  MOV ", ", ", ""]) == "  MOV {}, {}"
  {
    TemplateCons(", ", [""]);
    TemplateCons("  MOV ", [", ", ""]);
  }

  lemma BinaryPieces()
    ensures LiteralPieces(["  ", " = ", " ", " ", ""])
  {
    Literal5("  ", " = ", " ", " ", "");
  }

  lemma BinaryFormat()
    ensures Template(["  ", " = ", " ", " ", ""]) == "  {} = {} {} {}"
  {
    TemplateCons(" ", [""]);
    TemplateCons(" ", [" ", ""]);
    TemplateCons(" = ", [" ", " ", ""]);
    TemplateCons("  ", [" = ", " ", " ", ""]);
  }

  lemma ConstPieces()
    ensures LiteralPieces(["  CONST ", " = ", ""])
  {
    Literal3("  CONST ", " = ", "");
  }

  lemma ConstFormat()
    ensures Template(["  CONST ", " = ", ""]) == "  CONST {} = {}"
  {
    TemplateCons(" = ", [""]);
    TemplateCons("  CONST ", [" = ", ""]);
  }

  lemma NotPieces()
    ensures LiteralPieces(["  i", "_NOT ", " = !", ""])
  {
    Literal4("  i", "_NOT ", " = !", "");
  }

  lemma NotFormat()
    ensures Template(["  i", "_NOT ", " = !", ""]) == "  i{}_NOT {} = !{}"
  {
    TemplateCons(" = !", [""]);
    TemplateCons("_NOT ", [" = !", ""]);
    TemplateCons("  i", ["_NOT ", " = !", ""]);
  }

  lemma ForeignCallPieces()
    ensures LiteralPieces(["  FOREIGN_CALL ", " (", ") => ", ""])
  {
    Literal4("  FOREIGN_CALL ", " (", ") => ", "");
  }

  lemma ForeignCallFormat()
    ensures Template(["  FOREIGN_CALL ", " (", ") => ", ""]) == "  FOREIGN_CALL {} ({}) => {}"
  {
    TemplateCons(") => ", [""]);
    TemplateCons(" (", [") => ", ""]);
    TemplateCons("  FOREIGN_CALL ", [" (", ") => ", ""]);
  }

  lemma LoadPieces()
    ensures LiteralPieces(["  LOAD ", " = *", ""])
  {
    Literal3("  LOAD ", " = *", "");
  }

  lemma LoadFormat()
    ensures Template(["  LOAD ", " = *", ""]) == "  LOAD {} = *{}"
  {
    TemplateCons(" = *", [""]);
    TemplateCons("  LOAD ", [" = *", ""]);
  }

  lemma StorePieces()
    ensures LiteralPieces(["  STORE *", " = ", ""])
  {
    Literal3("  STORE *", " = ", "");
  }

  lemma StoreFormat()
    ensures Template(["  STORE *", " = ", ""]) == "  STORE *{} = {}"
  {
    TemplateCons(" = ", [""]);
    TemplateCons("  STORE *", [" = ", ""]);
  }

  lemma AllocateArrayPieces()
    ensures LiteralPieces(["  ALLOCATE_ARRAY ", " SIZE ", ""])
  {
    Literal3("  ALLOCATE_ARRAY ", " SIZE ", "");
  }

  lemma AllocateArrayFormat()
    ensures Template(["  ALLOCATE_ARRAY ", " SIZE ", ""]) == "  ALLOCATE_ARRAY {} SIZE {}"
  {
    TemplateCons(" SIZE ", [""]);
    TemplateCons("  ALLOCATE_ARRAY ", [" SIZE ", ""]);
  }

  lemma ArrayGetPieces()
    ensures LiteralPieces(["  ARRAY_GET ", "[", "] -> ", ""])
  {
    Literal4("  ARRAY_GET ", "[", "] -> ", "");
  }

  lemma ArrayGetFormat()
    ensures Template(["  ARRAY_GET ", "[", "] -> ", ""]) == "  ARRAY_GET {}[{}] -> {}"
  {
    TemplateCons("] -> ", [""]);
    TemplateCons("[", ["] -> ", ""]);
    TemplateCons("  ARRAY_GET ", ["[", "] -> ", ""]);
  }

  lemma ArraySetPieces()
    ensures LiteralPieces(["  ARRAY_SET ", "[", "] = ", ""])
  {
    Literal4("  ARRAY_SET ", "[", "] = ", "");
  }

  lemma ArraySetFormat()
    ensures Template(["  ARRAY_SET ", "[", "] = ", ""]) == "  ARRAY_SET {}[{}] = {}"
  {
    TemplateCons("] = ", [""]);
    TemplateCons("[", ["] = ", ""]);
    TemplateCons("  ARRAY_SET ", ["[", "] = ", ""]);
  }

  lemma CopyArrayPieces()
    ensures LiteralPieces(["  COPY_ARRAY ", " -> ", " (", " ELEMENTS)"])
  {
    Literal4("  COPY_ARRAY ", " -> ", " (", " ELEMENTS)");
  }

  lemma CopyArrayFormat()
    ensures Template(["  COPY_ARRAY ", " -> ", " (", " ELEMENTS)"]) == "  COPY_ARRAY {} -> {} ({} ELEMENTS)"
  {
    TemplateCons(" (", [" ELEMENTS)"]);
    TemplateCons(" -> ", [" (", " ELEMENTS)"]);
    TemplateCons("  COPY_ARRAY ", [" -> ", " (", " ELEMENTS)"]);
  }

  lemma EnterContextPieces()
    ensures LiteralPieces(["", ":"])
  {
    Literal2("", ":");
  }

  lemma EnterContextFormat()
    ensures Template(["", ":"]) == "{}:"
  {
    TemplateCons("", [":"]);
  }

  lemma JumpPieces()
    ensures LiteralPieces(["  JUMP_TO ", ""])
  {
    Literal2("  JUMP_TO ", "");
  }

  lemma JumpFormat()
    ensures Template(["  JUMP_TO ", ""]) == "  JUMP_TO {}"
  {
    TemplateCons("  JUMP_TO ", [""]);
  }

  lemma JumpIfPieces()
    ensures LiteralPieces(["  JUMP_IF ", " TO ", ""])
  {
    Literal3("  JUMP_IF ", " TO ", "");
  }

  lemma JumpIfFormat()
    ensures Template(["  JUMP_IF ", " TO ", ""]) == "  JUMP_IF {} TO {}"
  {
    TemplateCons(" TO ", [""]);
    TemplateCons("  JUMP_IF ", [" TO ", ""]);
  }

  lemma CastPieces()
    ensures LiteralPieces(["  CAST ", " FROM ", " TO ", " BITS"])
  {
    Literal4("  CAST ", " FROM ", " TO ", " BITS");
  }

  lemma CastFormat()
    ensures Template(["  CAST ", " FROM ", " TO ", " BITS"]) == "  CAST {} FROM {} TO {} BITS"
  {
    TemplateCons(" TO ", [" BITS"]);
    TemplateCons(" FROM ", [" TO ", " BITS"]);
    TemplateCons("  CAST ", [" FROM ", " TO ", " BITS"]);
  }

  lemma Sha256Pieces()
    ensures LiteralPieces(["  SHA256 ", " -> ", ""])
  {
    Literal3("  SHA256 ", " -> ", "");
  }

  lemma Sha256Format()
    ensures Template(["  SHA256 ", " -> ", ""]) == "  SHA256 {} -> {}"
  {
    TemplateCons(" -> ", [""]);
    TemplateCons("  SHA256 ", [" -> ", ""]);
  }

  lemma Keccak256Pieces()
    ensures LiteralPieces(["  KECCAK256 ", " -> ", ""])
  {
    Literal3("  KECCAK256 ", " -> ", "");
  }

  lemma Keccak256Format()
    ensures Template(["  KECCAK256 ", " -> ", ""]) == "  KECCAK256 {} -> {}"
  {
    TemplateCons(" -> ", [""]);
    TemplateCons("  KECCAK256 ", [" -> ", ""]);
  }

  lemma Blake2sPieces()
    ensures LiteralPieces(["  BLAKE2S ", " -> ", ""])
  {
    Literal3("  BLAKE2S ", " -> ", "");
  }

  lemma Blake2sFormat()
    ensures Template(["  BLAKE2S ", " -> ", ""]) == "  BLAKE2S {} -> {}"
  {
    TemplateCons(" -> ", [""]);
    TemplateCons("  BLAKE2S ", [" -> ", ""]);
  }

  lemma HashToField128SecurityPieces()
    ensures LiteralPieces(["  HASH_TO_FIELD_128_SECURITY ", " -> ", ""])
  {
    Literal3("  HASH_TO_FIELD_128_SECURITY ", " -> ", "");
  }

  lemma HashToField128SecurityFormat()
    ensures Template(["  HASH_TO_FIELD_128_SECURITY ", " -> ", ""]) == "  HASH_TO_FIELD_128_SECURITY {} -> {}"
  {
    TemplateCons(" -> ", [""]);
    TemplateCons("  HASH_TO_FIELD_128_SECURITY ", [" -> ", ""]);
  }

  lemma EcdsaSecp256k1Pieces()
    ensures LiteralPieces(["  ECDSA_SECP256K1 ", " ", " ", " ", " -> ", ""])
  {
    Literal6("  ECDSA_SECP256K1 ", " ", " ", " ", " -> ", "");
  }

  lemma EcdsaSecp256k1Format()
    ensures Template(["  ECDSA_SECP256K1 ", " ", " ", " ", " -> ", ""]) == "  ECDSA_SECP256K1 {} {} {} {} -> {}"
  {
    TemplateCons(" -> ", [""]);
    TemplateCons(" ", [" -> ", ""]);
    TemplateCons(" ", [" ", " -> ", ""]);
    TemplateCons(" ", [" ", " ", " -> ", ""]);
    TemplateCons("  ECDSA_SECP256K1 ", [" ", " ", " ", " -> ", ""]);
  }

  lemma AddExternalCallPieces()
    ensures LiteralPieces(["  CALL ", ""])
  {
    Literal2("  CALL ", "");
  }

  lemma AddExternalCallFormat()
    ensures Template(["  CALL ", ""]) == "  CALL {}"
  {
    TemplateCons("  CALL ", [""]);
  }

  // ---------------------------------------------------------------------------
  // One function per disassembler entry point
  // ---------------------------------------------------------------------------

  /** `constrain_instruction`. */
  function ConstrainInstruction(enabled: bool, cfg: Config, condition: RegisterIndex): (line: Option<string>)
    ensures line == if enabled then Some("  ASSERT " + RegisterToken(cfg, condition) + " != 0") else None
    ensures enabled ==>
      Holes("  ASSERT {} != 0") == 1 &&
      line.value == Format("  ASSERT {} != 0", [RegisterToken(cfg, condition)])
  {
    var c := RegisterToken(cfg, condition);
    Interleave1("  ASSERT ", " != 0", c);
    ConstrainPieces();
    ConstrainFormat();
    DebugPrintln(enabled, ["  ASSERT ", " != 0"], [c])
  }

  /** `return_instruction`: the register tokens joined by ", " fill one directive. */
  function ReturnInstruction(enabled: bool, cfg: Config, returnRegisters: seq<RegisterIndex>): (line: Option<string>)
    ensures line == if enabled then Some("  // return " + Join(RegisterTokens(cfg, returnRegisters), ", ") + ";") else None
    ensures enabled ==>
      Holes("  // return {};") == 1 &&
      line.value == Format("  // return {};", [Join(RegisterTokens(cfg, returnRegisters), ", ")])
  {
    var registers := Join(RegisterTokens(cfg, returnRegisters), ", ");
    Interleave1("  // return ", ";", registers);
    ReturnPieces();
    ReturnFormat();
    DebugPrintln(enabled, ["  // return ", ";"], [registers])
  }

  /** `mov_instruction`. */
  function MovInstruction(enabled: bool, cfg: Config, destination: RegisterIndex, source: RegisterIndex): (line: Option<string>)
    ensures line == if enabled
      then Some("  MOV " + RegisterToken(cfg, destination) + ", " + RegisterToken(cfg, source)) else None
    ensures enabled ==>
      Holes("  MOV {}, {}") == 2 &&
      line.value == Format("  MOV {}, {}", [RegisterToken(cfg, destination), RegisterToken(cfg, source)])
  {
    var d, s := RegisterToken(cfg, destination), RegisterToken(cfg, source);
    Interleave2("  MOV ", ", ", "", d, s);
    MovPieces();
    MovFormat();
    DebugPrintln(enabled, ["  MOV ", ", ", ""], [d, s])
  }

  /** `binary_instruction`: the result, then `=`, then the operands around the operator. */
  function BinaryInstruction(enabled: bool, cfg: Config, lhs: RegisterIndex, rhs: RegisterIndex,
                             result: RegisterIndex, operation: BrilligBinaryOp): (line: Option<string>)
    ensures line == if enabled
      then Some("  " + RegisterToken(cfg, result) + " = " + RegisterToken(cfg, lhs) + " "
                + BinaryOpToken(cfg, operation) + " " + RegisterToken(cfg, rhs))
      else None
    ensures enabled ==>
      Holes("  {} = {} {} {}") == 4 &&
      line.value == Format("  {} = {} {} {}",
        [RegisterToken(cfg, result), RegisterToken(cfg, lhs), BinaryOpToken(cfg, operation),
         RegisterToken(cfg, rhs)])
  {
    var r, a, op, b := RegisterToken(cfg, result), RegisterToken(cfg, lhs),
                       BinaryOpToken(cfg, operation), RegisterToken(cfg, rhs);
    Interleave4("  ", " = ", " ", " ", "", r, a, op, b);
    BinaryPieces();
    BinaryFormat();
    DebugPrintln(enabled, ["  ", " = ", " ", " ", ""], [r, a, op, b])
  }

  /** `const_instruction`; the constant is the number `Value::to_usize` yields. */
  function ConstInstruction(enabled: bool, cfg: Config, result: RegisterIndex, constant: nat): (line: Option<string>)
    ensures line == if enabled
      then Some("  CONST " + RegisterToken(cfg, result) + " = " + Decimal(constant)) else None
    ensures enabled ==>
      Holes("  CONST {} = {}") == 2 &&
      line.value == Format("  CONST {} = {}", [RegisterToken(cfg, result), Decimal(constant)])
  {
    var r, v := RegisterToken(cfg, result), Decimal(constant);
    Interleave2("  CONST ", " = ", "", r, v);
    ConstPieces();
    ConstFormat();
    DebugPrintln(enabled, ["  CONST ", " = ", ""], [r, v])
  }

  /** `not_instruction`: the width leads, as in `i8_NOT`. */
  function NotInstruction(enabled: bool, cfg: Config, condition: RegisterIndex, bitSize: nat,
                          result: RegisterIndex): (line: Option<string>)
    ensures line == if enabled
      then Some("  i" + Decimal(bitSize) + "_NOT " + RegisterToken(cfg, result) + " = !"
                + RegisterToken(cfg, condition))
      else None
    ensures enabled ==>
      Holes("  i{}_NOT {} = !{}") == 3 &&
      line.value == Format("  i{}_NOT {} = !{}",
        [Decimal(bitSize), RegisterToken(cfg, result), RegisterToken(cfg, condition)])
  {
    var w, r, c := Decimal(bitSize), RegisterToken(cfg, result), RegisterToken(cfg, condition);
    Interleave3("  i", "_NOT ", " = !", "", w, r, c);
    NotPieces();
    NotFormat();
    DebugPrintln(enabled, ["  i", "_NOT ", " = !", ""], [w, r, c])
  }

  /** `foreign_call_instruction`: the name, the inputs in parentheses, then the outputs. */
  function ForeignCallInstruction(enabled: bool, cfg: Config, funcName: string,
                                  inputs: seq<RegisterOrMemory>, outputs: seq<RegisterOrMemory>): (line: Option<string>)
    ensures line == if enabled
      then Some("  FOREIGN_CALL " + funcName + " (" + OperandListToken(cfg, inputs) + ") => "
                + OperandListToken(cfg, outputs))
      else None
    ensures enabled ==>
      Holes("  FOREIGN_CALL {} ({}) => {}") == 3 &&
      line.value == Format("  FOREIGN_CALL {} ({}) => {}",
        [funcName, OperandListToken(cfg, inputs), OperandListToken(cfg, outputs)])
  {
    var i, o := OperandListToken(cfg, inputs), OperandListToken(cfg, outputs);
    Interleave3("  FOREIGN_CALL ", " (", ") => ", "", funcName, i, o);
    ForeignCallPieces();
    ForeignCallFormat();
    DebugPrintln(enabled, ["  FOREIGN_CALL ", " (", ") => ", ""], [funcName, i, o])
  }

  /** `load_instruction`. */
  function LoadInstruction(enabled: bool, cfg: Config, destination: RegisterIndex,
                           sourcePointer: RegisterIndex): (line: Option<string>)
    ensures line == if enabled
      then Some("  LOAD " + RegisterToken(cfg, destination) + " = *" + RegisterToken(cfg, sourcePointer)) else None
    ensures enabled ==>
      Holes("  LOAD {} = *{}") == 2 &&
      line.value == Format("  LOAD {} = *{}",
        [RegisterToken(cfg, destination), RegisterToken(cfg, sourcePointer)])
  {
    var d, p := RegisterToken(cfg, destination), RegisterToken(cfg, sourcePointer);
    Interleave2("  LOAD ", " = *", "", d, p);
    LoadPieces();
    LoadFormat();
    DebugPrintln(enabled, ["  LOAD ", " = *", ""], [d, p])
  }

  /** `store_instruction`. */
  function StoreInstruction(enabled: bool, cfg: Config, destinationPointer: RegisterIndex,
                            source: RegisterIndex): (line: Option<string>)
    ensures line == if enabled
      then Some("  STORE *" + RegisterToken(cfg, destinationPointer) + " = " + RegisterToken(cfg, source)) else None
    ensures enabled ==>
      Holes("  STORE *{} = {}") == 2 &&
      line.value == Format("  STORE *{} = {}",
        [RegisterToken(cfg, destinationPointer), RegisterToken(cfg, source)])
  {
    var p, s := RegisterToken(cfg, destinationPointer), RegisterToken(cfg, source);
    Interleave2("  STORE *", " = ", "", p, s);
    StorePieces();
    StoreFormat();
    DebugPrintln(enabled, ["  STORE *", " = ", ""], [p, s])
  }

  /** `stop_instruction`: the literal arm of the macro. */
  function StopInstruction(enabled: bool): (line: Option<string>)
    ensures line == if enabled then Some("  STOP") else None
  {
    DebugPrintlnLiteral(enabled, "  STOP")
  }

  /** `allocate_array_instruction`. */
  function AllocateArrayInstruction(enabled: bool, cfg: Config, pointerRegister: RegisterIndex,
                                    sizeRegister: RegisterIndex): (line: Option<string>)
    ensures line == if enabled
      then Some("  ALLOCATE_ARRAY " + RegisterToken(cfg, pointerRegister) + " SIZE "
                + RegisterToken(cfg, sizeRegister))
      else None
    ensures enabled ==>
      Holes("  ALLOCATE_ARRAY {} SIZE {}") == 2 &&
      line.value == Format("  ALLOCATE_ARRAY {} SIZE {}",
        [RegisterToken(cfg, pointerRegister), RegisterToken(cfg, sizeRegister)])
  {
    var p, n := RegisterToken(cfg, pointerRegister), RegisterToken(cfg, sizeRegister);
    Interleave2("  ALLOCATE_ARRAY ", " SIZE ", "", p, n);
    AllocateArrayPieces();
    AllocateArrayFormat();
    DebugPrintln(enabled, ["  ALLOCATE_ARRAY ", " SIZE ", ""], [p, n])
  }

  /** `array_get`. */
  function ArrayGetInstruction(enabled: bool, cfg: Config, arrayPtr: RegisterIndex, index: RegisterIndex,
                               result: RegisterIndex): (line: Option<string>)
    ensures line == if enabled
      then Some("  ARRAY_GET " + RegisterToken(cfg, arrayPtr) + "[" + RegisterToken(cfg, index) + "] -> "
                + RegisterToken(cfg, result))
      else None
    ensures enabled ==>
      Holes("  ARRAY_GET {}[{}] -> {}") == 3 &&
      line.value == Format("  ARRAY_GET {}[{}] -> {}",
        [RegisterToken(cfg, arrayPtr), RegisterToken(cfg, index), RegisterToken(cfg, result)])
  {
    var a, i, r := RegisterToken(cfg, arrayPtr), RegisterToken(cfg, index), RegisterToken(cfg, result);
    Interleave3("  ARRAY_GET ", "[", "] -> ", "", a, i, r);
    ArrayGetPieces();
    ArrayGetFormat();
    DebugPrintln(enabled, ["  ARRAY_GET ", "[", "] -> ", ""], [a, i, r])
  }

  /** `array_set`. */
  function ArraySetInstruction(enabled: bool, cfg: Config, arrayPtr: RegisterIndex, index: RegisterIndex,
                               value: RegisterIndex): (line: Option<string>)
    ensures line == if enabled
      then Some("  ARRAY_SET " + RegisterToken(cfg, arrayPtr) + "[" + RegisterToken(cfg, index) + "] = "
                + RegisterToken(cfg, value))
      else None
    ensures enabled ==>
      Holes("  ARRAY_SET {}[{}] = {}") == 3 &&
      line.value == Format("  ARRAY_SET {}[{}] = {}",
        [RegisterToken(cfg, arrayPtr), RegisterToken(cfg, index), RegisterToken(cfg, value)])
  {
    var a, i, v := RegisterToken(cfg, arrayPtr), RegisterToken(cfg, index), RegisterToken(cfg, value);
    Interleave3("  ARRAY_SET ", "[", "] = ", "", a, i, v);
    ArraySetPieces();
    ArraySetFormat();
    DebugPrintln(enabled, ["  ARRAY_SET ", "[", "] = ", ""], [a, i, v])
  }

  /** `copy_array_instruction`. */
  function CopyArrayInstruction(enabled: bool, cfg: Config, source: RegisterIndex, destination: RegisterIndex,
                                numElementsRegister: RegisterIndex): (line: Option<string>)
    ensures line == if enabled
      then Some("  COPY_ARRAY " + RegisterToken(cfg, source) + " -> " + RegisterToken(cfg, destination)
                + " (" + RegisterToken(cfg, numElementsRegister) + " ELEMENTS)")
      else None
    ensures enabled ==>
      Holes("  COPY_ARRAY {} -> {} ({} ELEMENTS)") == 3 &&
      line.value == Format("  COPY_ARRAY {} -> {} ({} ELEMENTS)",
        [RegisterToken(cfg, source), RegisterToken(cfg, destination), RegisterToken(cfg, numElementsRegister)])
  {
    var s, d, n := RegisterToken(cfg, source), RegisterToken(cfg, destination),
                   RegisterToken(cfg, numElementsRegister);
    Interleave3("  COPY_ARRAY ", " -> ", " (", " ELEMENTS)", s, d, n);
    CopyArrayPieces();
    CopyArrayFormat();
    DebugPrintln(enabled, ["  COPY_ARRAY ", " -> ", " (", " ELEMENTS)"], [s, d, n])
  }

  /** The suffix that names the first block of a function. */
  const FirstBlockSuffix := "-b0"

  /** `enter_context`: a label ending in `-b0` is never printed, whatever came
      before it; any other label is printed followed by `:`. */
  function EnterContextInstruction(enabled: bool, contextLabel: string): (line: Option<string>)
    ensures line == if enabled && !EndsWith(contextLabel, FirstBlockSuffix) then Some(contextLabel + ":") else None
    ensures enabled && !EndsWith(contextLabel, FirstBlockSuffix) ==>
      Holes("{}:") == 1 &&
      line.value == Format("{}:", [contextLabel])
  {
    if !EndsWith(contextLabel, FirstBlockSuffix) then
      Interleave1("", ":", contextLabel);
      assert "" + contextLabel + ":" == contextLabel + ":";
      EnterContextPieces();
      EnterContextFormat();
      DebugPrintln(enabled, ["", ":"], [contextLabel])
    else None
  }

  /** `jump_instruction`. */
  function JumpInstruction(enabled: bool, targetLabel: string): (line: Option<string>)
    ensures line == if enabled then Some("  JUMP_TO " + targetLabel) else None
    ensures enabled ==>
      Holes("  JUMP_TO {}") == 1 &&
      line.value == Format("  JUMP_TO {}", [targetLabel])
  {
    Interleave1("  JUMP_TO ", "", targetLabel);
    JumpPieces();
    JumpFormat();
    DebugPrintln(enabled, ["  JUMP_TO ", ""], [targetLabel])
  }

  /** `jump_if_instruction`; the label is the text of its `to_string`. */
  function JumpIfInstruction(enabled: bool, cfg: Config, condition: RegisterIndex, targetLabel: string): (line: Option<string>)
    ensures line == if enabled
      then Some("  JUMP_IF " + RegisterToken(cfg, condition) + " TO " + targetLabel) else None
    ensures enabled ==>
      Holes("  JUMP_IF {} TO {}") == 2 &&
      line.value == Format("  JUMP_IF {} TO {}", [RegisterToken(cfg, condition), targetLabel])
  {
    var c := RegisterToken(cfg, condition);
    Interleave2("  JUMP_IF ", " TO ", "", c, targetLabel);
    JumpIfPieces();
    JumpIfFormat();
    DebugPrintln(enabled, ["  JUMP_IF ", " TO ", ""], [c, targetLabel])
  }

  /** `cast_instruction`. */
  function CastInstruction(enabled: bool, cfg: Config, destination: RegisterIndex, source: RegisterIndex,
                           targetBitSize: nat): (line: Option<string>)
    ensures line == if enabled
      then Some("  CAST " + RegisterToken(cfg, destination) + " FROM " + RegisterToken(cfg, source) + " TO "
                + Decimal(targetBitSize) + " BITS")
      else None
    ensures enabled ==>
      Holes("  CAST {} FROM {} TO {} BITS") == 3 &&
      line.value == Format("  CAST {} FROM {} TO {} BITS",
        [RegisterToken(cfg, destination), RegisterToken(cfg, source), Decimal(targetBitSize)])
  {
    var d, s, w := RegisterToken(cfg, destination), RegisterToken(cfg, source), Decimal(targetBitSize);
    Interleave3("  CAST ", " FROM ", " TO ", " BITS", d, s, w);
    CastPieces();
    CastFormat();
    DebugPrintln(enabled, ["  CAST ", " FROM ", " TO ", " BITS"], [d, s, w])
  }

  /** `black_box_op_instruction`: a hash shows its message then `->` its output;
      ECDSA shows the hashed message, the key's x and y, the signature, then
      `->` the result, in that order. */
  function BlackBoxOpInstruction(enabled: bool, cfg: Config, op: BlackBoxOp): (line: Option<string>)
    ensures !enabled ==> line == None
    ensures enabled && op.Sha256? ==> line == Some(
      "  SHA256 " + OperandToken(cfg, op.message) + " -> " + OperandToken(cfg, op.output))
    ensures enabled && op.Keccak256? ==> line == Some(
      "  KECCAK256 " + OperandToken(cfg, op.message) + " -> " + OperandToken(cfg, op.output))
    ensures enabled && op.Blake2s? ==> line == Some(
      "  BLAKE2S " + OperandToken(cfg, op.message) + " -> " + OperandToken(cfg, op.output))
    ensures enabled && op.HashToField128Security? ==> line == Some(
      "  HASH_TO_FIELD_128_SECURITY " + OperandToken(cfg, op.message) + " -> " + OperandToken(cfg, op.output))
    ensures enabled && op.EcdsaSecp256k1? ==> line == Some(
      "  ECDSA_SECP256K1 " + OperandToken(cfg, op.hashedMsg) + " " + OperandToken(cfg, op.publicKeyX) + " "
      + OperandToken(cfg, op.publicKeyY) + " " + OperandToken(cfg, op.signature) + " -> "
      + OperandToken(cfg, op.result))
    ensures enabled && op.Sha256? ==>
      Holes("  SHA256 {} -> {}") == 2 &&
      line.value == Format("  SHA256 {} -> {}", [OperandToken(cfg, op.message), OperandToken(cfg, op.output)])
    ensures enabled && op.Keccak256? ==>
      Holes("  KECCAK256 {} -> {}") == 2 &&
      line.value == Format("  KECCAK256 {} -> {}",
        [OperandToken(cfg, op.message), OperandToken(cfg, op.output)])
    ensures enabled && op.Blake2s? ==>
      Holes("  BLAKE2S {} -> {}") == 2 &&
      line.value == Format("  BLAKE2S {} -> {}",
        [OperandToken(cfg, op.message), OperandToken(cfg, op.output)])
    ensures enabled && op.HashToField128Security? ==>
      Holes("  HASH_TO_FIELD_128_SECURITY {} -> {}") == 2 &&
      line.value == Format("  HASH_TO_FIELD_128_SECURITY {} -> {}",
        [OperandToken(cfg, op.message), OperandToken(cfg, op.output)])
    ensures enabled && op.EcdsaSecp256k1? ==>
      Holes("  ECDSA_SECP256K1 {} {} {} {} -> {}") == 5 &&
      line.value == Format("  ECDSA_SECP256K1 {} {} {} {} -> {}",
        [OperandToken(cfg, op.hashedMsg), OperandToken(cfg, op.publicKeyX), OperandToken(cfg, op.publicKeyY),
         OperandToken(cfg, op.signature), OperandToken(cfg, op.result)])
  {
    match op
    case Sha256(message, output) =>
      var m, o := OperandToken(cfg, message), OperandToken(cfg, output);
      Interleave2("  SHA256 ", " -> ", "", m, o);
      Sha256Pieces();
      Sha256Format();
      DebugPrintln(enabled, ["  SHA256 ", " -> ", ""], [m, o])
    case Keccak256(message, output) =>
      var m, o := OperandToken(cfg, message), OperandToken(cfg, output);
      Interleave2("  KECCAK256 ", " -> ", "", m, o);
      Keccak256Pieces();
      Keccak256Format();
      DebugPrintln(enabled, ["  KECCAK256 ", " -> ", ""], [m, o])
    case Blake2s(message, output) =>
      var m, o := OperandToken(cfg, message), OperandToken(cfg, output);
      Interleave2("  BLAKE2S ", " -> ", "", m, o);
      Blake2sPieces();
      Blake2sFormat();
      DebugPrintln(enabled, ["  BLAKE2S ", " -> ", ""], [m, o])
    case HashToField128Security(message, output) =>
      var m, o := OperandToken(cfg, message), OperandToken(cfg, output);
      Interleave2("  HASH_TO_FIELD_128_SECURITY ", " -> ", "", m, o);
      HashToField128SecurityPieces();
      HashToField128SecurityFormat();
      DebugPrintln(enabled, ["  HASH_TO_FIELD_128_SECURITY ", " -> ", ""], [m, o])
    case EcdsaSecp256k1(hashedMsg, publicKeyX, publicKeyY, signature, result) =>
      var h, x, y, s, r := OperandToken(cfg, hashedMsg), OperandToken(cfg, publicKeyX),
                           OperandToken(cfg, publicKeyY), OperandToken(cfg, signature), OperandToken(cfg, result);
      Interleave5("  ECDSA_SECP256K1 ", " ", " ", " ", " -> ", "", h, x, y, s, r);
      EcdsaSecp256k1Pieces();
      EcdsaSecp256k1Format();
      DebugPrintln(enabled, ["  ECDSA_SECP256K1 ", " ", " ", " ", " -> ", ""], [h, x, y, s, r])
  }

  /** `add_external_call_instruction`. */
  function AddExternalCallInstruction(enabled: bool, funcLabel: string): (line: Option<string>)
    ensures line == if enabled then Some("  CALL " + funcLabel) else None
    ensures enabled ==>
      Holes("  CALL {}") == 1 &&
      line.value == Format("  CALL {}", [funcLabel])
  {
    Interleave1("  CALL ", "", funcLabel);
    AddExternalCallPieces();
    AddExternalCallFormat();
    DebugPrintln(enabled, ["  CALL ", ""], [funcLabel])
  }

  // ---------------------------------------------------------------------------
  // A stream of calls
  // ---------------------------------------------------------------------------

  /** The calls that print nothing even with the trace on: first-block labels. */
  predicate Suppressed(instr: Instruction) {
    instr.EnterContext? && EndsWith(instr.contextLabel, FirstBlockSuffix)
  }

  /** The line one call prints, if any. */
  function Show(enabled: bool, cfg: Config, instr: Instruction): (line: Option<string>)
    ensures line.Some? <==> enabled && !Suppressed(instr)
  {
    match instr
    case Constrain(c) => ConstrainInstruction(enabled, cfg, c)
    case Return(rs) => ReturnInstruction(enabled, cfg, rs)
    case Mov(d, s) => MovInstruction(enabled, cfg, d, s)
    case Binary(a, b, r, op) => BinaryInstruction(enabled, cfg, a, b, r, op)
    case Const(r, v) => ConstInstruction(enabled, cfg, r, v)
    case Not(c, w, r) => NotInstruction(enabled, cfg, c, w, r)
    case ForeignCall(name, ins, outs) => ForeignCallInstruction(enabled, cfg, name, ins, outs)
    case Load(d, p) => LoadInstruction(enabled, cfg, d, p)
    case Store(p, s) => StoreInstruction(enabled, cfg, p, s)
    case Stop => StopInstruction(enabled)
    case AllocateArray(p, n) => AllocateArrayInstruction(enabled, cfg, p, n)
    case ArrayGet(a, i, r) => ArrayGetInstruction(enabled, cfg, a, i, r)
    case ArraySet(a, i, v) => ArraySetInstruction(enabled, cfg, a, i, v)
    case CopyArray(s, d, n) => CopyArrayInstruction(enabled, cfg, s, d, n)
    case EnterContext(l) => EnterContextInstruction(enabled, l)
    case Jump(l) => JumpInstruction(enabled, l)
    case JumpIf(c, l) => JumpIfInstruction(enabled, cfg, c, l)
    case Cast(d, s, w) => CastInstruction(enabled, cfg, d, s, w)
    case BlackBox(op) => BlackBoxOpInstruction(enabled, cfg, op)
    case ExternalCall(l) => AddExternalCallInstruction(enabled, l)
  }

  function SuppressedCount(instrs: seq<Instruction>): nat {
    if |instrs| == 0 then 0
    else (if Suppressed(instrs[0]) then 1 else 0) + SuppressedCount(instrs[1..])
  }

  /** The lines a sequence of calls prints, in call order. */
  function Trace(enabled: bool, cfg: Config, instrs: seq<Instruction>): (lines: seq<string>)
    ensures !enabled ==> lines == []
    ensures enabled ==> |lines| + SuppressedCount(instrs) == |instrs|
  {
    if |instrs| == 0 then []
    else
      match Show(enabled, cfg, instrs[0])
      case None => Trace(enabled, cfg, instrs[1..])
      case Some(line) => [line] + Trace(enabled, cfg, instrs[1..])
  }

  /** The lines a run of calls prints, given the line each call prints. */
  function Collect(show: Instruction -> Option<string>, instrs: seq<Instruction>): (lines: seq<string>)
    ensures |lines| <= |instrs|
  {
    if |instrs| == 0 then []
    else
      match show(instrs[0])
      case None => Collect(show, instrs[1..])
      case Some(line) => [line] + Collect(show, instrs[1..])
  }

  /** What one call prints, as a function of the call. */
  function Printer(enabled: bool, cfg: Config): (show: Instruction -> Option<string>)
    ensures forall instr :: show(instr) == Show(enabled, cfg, instr)
  {
    instr => Show(enabled, cfg, instr)
  }

  /** `Trace` collects what `Show` prints. */
  lemma {:induction false} TraceCollects(enabled: bool, cfg: Config, instrs: seq<Instruction>)
    ensures Trace(enabled, cfg, instrs) == Collect(Printer(enabled, cfg), instrs)
  {
    if |instrs| > 0 {
      TraceCollects(enabled, cfg, instrs[1..]);
    }
  }

  lemma {:induction false} CollectAppend(show: Instruction -> Option<string>, xs: seq<Instruction>, ys: seq<Instruction>)
    ensures Collect(show, xs + ys) == Collect(show, xs) + Collect(show, ys)
  {
    if |xs| == 0 {
      assert xs + ys == ys;
    } else {
      assert (xs + ys)[0] == xs[0];
      assert (xs + ys)[1..] == xs[1..] + ys;
      CollectAppend(show, xs[1..], ys);
    }
  }

  lemma {:induction false} CollectLines(show: Instruction -> Option<string>, instrs: seq<Instruction>)
    ensures forall line :: line in Collect(show, instrs) ==>
              exists i :: 0 <= i < |instrs| && show(instrs[i]) == Some(line)
  {
    if |instrs| > 0 {
      CollectLines(show, instrs[1..]);
      forall line | line in Collect(show, instrs)
        ensures exists i :: 0 <= i < |instrs| && show(instrs[i]) == Some(line)
      {
        if show(instrs[0]) == Some(line) {
          assert show(instrs[0]) == Some(line);
        } else {
          assert line in Collect(show, instrs[1..]);
          var i :| 0 <= i < |instrs[1..]| && show(instrs[1..][i]) == Some(line);
          assert instrs[1..][i] == instrs[i + 1];
        }
      }
    }
  }

  /** The printer keeps no state between calls: the trace of two runs of calls
      is the first run's trace followed by the second's. */
  lemma TraceAppend(enabled: bool, cfg: Config, xs: seq<Instruction>, ys: seq<Instruction>)
    ensures Trace(enabled, cfg, xs + ys) == Trace(enabled, cfg, xs) + Trace(enabled, cfg, ys)
  {
    TraceCollects(enabled, cfg, xs + ys);
    TraceCollects(enabled, cfg, xs);
    TraceCollects(enabled, cfg, ys);
    CollectAppend(Printer(enabled, cfg), xs, ys);
  }

  /** One call contributes its own line, if it prints one, and nothing else. */
  lemma TraceOne(enabled: bool, cfg: Config, instr: Instruction)
    ensures Trace(enabled, cfg, [instr]) == match Show(enabled, cfg, instr)
                                             case Some(line) => [line]
                                             case None => []
  {
    assert [instr][1..] == [];
  }

  /** Every printed line is the line of some call. */
  lemma TraceLines(enabled: bool, cfg: Config, instrs: seq<Instruction>)
    ensures forall line :: line in Trace(enabled, cfg, instrs) ==>
              exists i :: 0 <= i < |instrs| && Show(enabled, cfg, instrs[i]) == Some(line)
  {
    TraceCollects(enabled, cfg, instrs);
    CollectLines(Printer(enabled, cfg), instrs);
  }

  /** A function's entry block is labelled by the function's own label followed
      by `-b0`; only the function label is printed for the pair. */
  lemma FirstBlockLabel(cfg: Config, name: string)
    requires !EndsWith(name, FirstBlockSuffix)
    ensures Trace(true, cfg, [EnterContext(name), EnterContext(name + FirstBlockSuffix)]) == [name + ":"]
  {
    EndsWithAppended(name, FirstBlockSuffix);
    var xs := [EnterContext(name), EnterContext(name + FirstBlockSuffix)];
    assert xs[1..] == [EnterContext(name + FirstBlockSuffix)];
    assert xs[1..][1..] == [];
  }

  /** The suppression looks at the label alone: a `-b0` label is never printed,
      even with no function label before it. */
  lemma FirstBlockAlone(enabled: bool, cfg: Config, name: string)
    ensures Trace(enabled, cfg, [EnterContext(name + FirstBlockSuffix)]) == []
  {
    EndsWithAppended(name, FirstBlockSuffix);
    assert [EnterContext(name + FirstBlockSuffix)][1..] == [];
  }
}
