# Brillig debug disassembler, modelled in Dafny

The Noir compiler's Brillig code generator can print a readable trace of the code it emits.
Each of its entry points prints at most one line. Examples are `  MOV R3, R1`,
`  R2 = R0 i8::+ R1` and `f1:`. The whole trace is switched by one constant,
`ENABLE_DEBUG_TRACE`. These functions only render text.

The model has four modules:

- `Brillig` (`brillig.dfy`) holds the operand and opcode vocabulary as immutable datatypes.
  `Instruction` has one case per entry point. `Config` carries the two constants of the
  Brillig IR that the printer reads: `BRILLIG_MEMORY_ADDRESSING_BIT_SIZE` and the
  stack-pointer register.
- `RustText` (`rust_text.dfy`) writes out the Rust string machinery the printer uses:
  - decimal `to_string` and a decimal reader;
  - `ends_with` (the predicate `EndsWith`, the library call used at line 243 of
    `debug_show.rs`; its property is `EndsWithAppended`);
  - `join(", ")` and a splitter;
  - `format!` restricted to `{}` directives, as a character-level substitution.
    `FormatPieces` proves that substitution equal to concatenating literal pieces and arguments.
- `DebugShow` (`debug_show.dfy`) models the following:
  - the `DebugToString` impls for registers, heap arrays, heap vectors, operands, operator
    kinds and slices, as token functions (the `str`, `usize` and `u32` impls are the text
    and decimal functions of `RustText`; the `Value` impl is left out, see below);
  - both arms of `debug_println!`;
  - every entry point, as a function from its arguments to `Option<string>`: the line
    printed, or `None`;
  - `Show` and `Trace`, which print a sequence of entry-point calls.
- `OperandDecode` (`operand_decode.dfy`) parses operand tokens and operand slices back.
  The round-trip lemmas are the partners of the operand rendering. They prove that two
  different operands, or two different slices, never print alike.

The trace switch is the parameter `enabled`. `Config` holds the addressing bit size and
the stack pointer. The printer's only output is the returned line.

`enter_context` is modelled as the code behaves. A label that ends in `-b0` is never
printed, whatever was printed before it. The comment in the source gives the reason: labels
such as `f1` and then `f1-b0` mean the same thing, so printing both one after the other is
avoided. That reading would still print a `-b0` label that arrives alone, but the code
does not. `FirstBlockLabel` proves the described pair case. `FirstBlockAlone` proves that a lone `-b0` label prints nothing.

## Model

| member | source | states |
|---|---|---|
| RustText.Decimal | crates/noirc_evaluator/src/brillig/brillig_ir/debug_show.rs:17-27 | `to_string` of an unsigned integer: at least one character, all decimal digits, no leading zero unless the value is 0 |
| RustText.ParseDecimal | crates/noirc_evaluator/src/brillig/brillig_ir/debug_show.rs:17-27 | reading decimal text succeeds exactly on non-empty strings of digits |
| RustText.DecimalRoundTrip | crates/noirc_evaluator/src/brillig/brillig_ir/debug_show.rs:17-27 | reading back the decimal text of `n` gives `n` |
| RustText.DecimalInjective | crates/noirc_evaluator/src/brillig/brillig_ir/debug_show.rs:17-27 | distinct numbers have distinct decimal text |
| RustText.EndsWithAppended | crates/noirc_evaluator/src/brillig/brillig_ir/debug_show.rs:243 | any string followed by a suffix ends with that suffix |
| RustText.Join | crates/noirc_evaluator/src/brillig/brillig_ir/debug_show.rs:125-127 | joining no parts gives empty text; one part gives that part; otherwise the text is at least as long as the first part |
| RustText.JoinAvoids | crates/noirc_evaluator/src/brillig/brillig_ir/debug_show.rs:125-127 | a character absent from every part and from the separator is absent from the joined text |
| RustText.SplitListCons | crates/noirc_evaluator/src/brillig/brillig_ir/debug_show.rs:125-127 | a comma-free first part followed by `", "` is split off as the first part of the list |
| RustText.SplitJoin | crates/noirc_evaluator/src/brillig/brillig_ir/debug_show.rs:125-127 | splitting a `", "`-joined list at its commas gives back the parts, when no part holds a comma |
| RustText.Format | crates/noirc_evaluator/src/brillig/brillig_ir/debug_show.rs:136-139 | `format!` with `{}` directives: every directive is replaced by its argument, so the length is the template's length minus two per directive plus the arguments' lengths |
| RustText.FormatTemplate | crates/noirc_evaluator/src/brillig/brillig_ir/debug_show.rs:136-139 | a format string made of brace-free literal pieces separated by `{}` formats to the pieces interleaved with the arguments |
| RustText.FormatPieces | crates/noirc_evaluator/src/brillig/brillig_ir/debug_show.rs:136-139 | the interleaving of pieces and arguments equals `format!` applied to the template the pieces form, whenever the pieces are brace-free |
| RustText.TemplateCons | crates/noirc_evaluator/src/brillig/brillig_ir/debug_show.rs:136-139 | a format string built from literal pieces is the first piece, one `{}`, then the format string of the remaining pieces |
| RustText.FormatAvoids | crates/noirc_evaluator/src/brillig/brillig_ir/debug_show.rs:136-139 | a character absent from all pieces and arguments is absent from the formatted text |
| DebugShow.RegisterToken | crates/noirc_evaluator/src/brillig/brillig_ir/debug_show.rs:29-37 | the token is `Stack` exactly for the stack pointer; any other register is `R` followed by its index in decimal |
| DebugShow.RegisterTokenAlphabet | crates/noirc_evaluator/src/brillig/brillig_ir/debug_show.rs:29-37 | a register token starts with a letter and holds only letters and digits |
| DebugShow.HeapArrayToken | crates/noirc_evaluator/src/brillig/brillig_ir/debug_show.rs:39-43 | a heap array is its pointer's token, `[0..`, the size in decimal, `]` |
| DebugShow.HeapVectorToken | crates/noirc_evaluator/src/brillig/brillig_ir/debug_show.rs:45-49 | a heap vector is its pointer's token, `[0..`, its size register's token, `]` |
| DebugShow.RegisterTokenAvoids | crates/noirc_evaluator/src/brillig/brillig_ir/debug_show.rs:29-37 | a register token holds no comma, no line break and no `[` |
| DebugShow.OperandToken | crates/noirc_evaluator/src/brillig/brillig_ir/debug_show.rs:114-122 | an operand token is non-empty and holds no comma and no line break; it holds a `[` exactly when the operand is a heap array or heap vector rather than a register |
| DebugShow.OperandTokens | crates/noirc_evaluator/src/brillig/brillig_ir/debug_show.rs:124-128 | a slice yields one token per element |
| DebugShow.RegisterTokens | crates/noirc_evaluator/src/brillig/brillig_ir/debug_show.rs:150-155 | the return registers yield one token per register |
| DebugShow.RegisterTokensAt | crates/noirc_evaluator/src/brillig/brillig_ir/debug_show.rs:150-155 | the i-th token of the rendered return registers is the token of the i-th register |
| DebugShow.OperandListToken | crates/noirc_evaluator/src/brillig/brillig_ir/debug_show.rs:124-128 | an empty slice prints as empty text and a one-element slice as that element's token |
| DebugShow.FieldOpToken | crates/noirc_evaluator/src/brillig/brillig_ir/debug_show.rs:51-61 | every field operator token starts with `f` and holds no colon |
| DebugShow.IntOpToken | crates/noirc_evaluator/src/brillig/brillig_ir/debug_show.rs:63-81 | an integer operator token is a non-empty symbol that starts with none of `f`, `i` or `%` and holds no colon |
| DebugShow.OperatorTokensInjective | crates/noirc_evaluator/src/brillig/brillig_ir/debug_show.rs:51-81 | distinct field operators have distinct tokens, distinct integer operators have distinct tokens, and no field token equals an integer token |
| DebugShow.ModuloSymbol | crates/noirc_evaluator/src/brillig/brillig_ir/debug_show.rs:96 | the remainder symbol is made of `%` signs only: one when signed, two when unsigned |
| DebugShow.BinaryOpToken | crates/noirc_evaluator/src/brillig/brillig_ir/debug_show.rs:83-106 | a field operation prints its field token; an integer or remainder operation prints its width only when the width is below the addressing bit size, as `i<w>::<op>` or `<op>:<w>` |
| DebugShow.WidthTagShown | crates/noirc_evaluator/src/brillig/brillig_ir/debug_show.rs:83-106 | an operator token holds a colon exactly when it is an integer or remainder operation narrower than the addressing bit size |
| DebugShow.NarrowIntegerTokenInjective | crates/noirc_evaluator/src/brillig/brillig_ir/debug_show.rs:87-93 | two narrow integer tokens are equal only when their widths and operators are equal |
| DebugShow.NarrowModuloTokenInjective | crates/noirc_evaluator/src/brillig/brillig_ir/debug_show.rs:95-102 | two narrow remainder tokens are equal only when their widths and signedness are equal |
| DebugShow.IntegerModuloDistinct | crates/noirc_evaluator/src/brillig/brillig_ir/debug_show.rs:83-106 | an integer operation never prints like a remainder operation |
| DebugShow.BinaryOpTokenInjective | crates/noirc_evaluator/src/brillig/brillig_ir/debug_show.rs:83-106 | two operations print alike if and only if they agree on everything except widths at or above the addressing bit size |
| DebugShow.DebugPrintln | crates/noirc_evaluator/src/brillig/brillig_ir/debug_show.rs:136-140 | with the trace on, the macro prints exactly the `format!` of its format string (brace-free literal pieces joined by `{}`) and its arguments, which is the pieces interleaved with the arguments, and a single line when neither holds a line break; with it off, nothing |
| DebugShow.DebugPrintlnLiteral | crates/noirc_evaluator/src/brillig/brillig_ir/debug_show.rs:131-135 | the literal arm prints its text unchanged, which is `format!("{}", text)`, when the trace is on, nothing otherwise |
| DebugShow.LiteralArmFormat | crates/noirc_evaluator/src/brillig/brillig_ir/debug_show.rs:133 | the literal pieces used for this line, joined by `{}`, give exactly the format string `{}` |
| DebugShow.ConstrainFormat | crates/noirc_evaluator/src/brillig/brillig_ir/debug_show.rs:146 | the literal pieces used for this line, joined by `{}`, give exactly the format string `  ASSERT {} != 0` |
| DebugShow.ReturnFormat | crates/noirc_evaluator/src/brillig/brillig_ir/debug_show.rs:157 | the literal pieces used for this line, joined by `{}`, give exactly the format string `  // return {};` |
| DebugShow.MovFormat | crates/noirc_evaluator/src/brillig/brillig_ir/debug_show.rs:162 | the literal pieces used for this line, joined by `{}`, give exactly the format string `  MOV {}, {}` |
| DebugShow.BinaryFormat | crates/noirc_evaluator/src/brillig/brillig_ir/debug_show.rs:172 | the literal pieces used for this line, joined by `{}`, give exactly the format string `  {} = {} {} {}` |
| DebugShow.ConstFormat | crates/noirc_evaluator/src/brillig/brillig_ir/debug_show.rs:177 | the literal pieces used for this line, joined by `{}`, give exactly the format string `  CONST {} = {}` |
| DebugShow.NotFormat | crates/noirc_evaluator/src/brillig/brillig_ir/debug_show.rs:182 | the literal pieces used for this line, joined by `{}`, give exactly the format string `  i{}_NOT {} = !{}` |
| DebugShow.ForeignCallFormat | crates/noirc_evaluator/src/brillig/brillig_ir/debug_show.rs:191 | the literal pieces used for this line, joined by `{}`, give exactly the format string `  FOREIGN_CALL {} ({}) => {}` |
| DebugShow.LoadFormat | crates/noirc_evaluator/src/brillig/brillig_ir/debug_show.rs:196 | the literal pieces used for this line, joined by `{}`, give exactly the format string `  LOAD {} = *{}` |
| DebugShow.StoreFormat | crates/noirc_evaluator/src/brillig/brillig_ir/debug_show.rs:201 | the literal pieces used for this line, joined by `{}`, give exactly the format string `  STORE *{} = {}` |
| DebugShow.AllocateArrayFormat | crates/noirc_evaluator/src/brillig/brillig_ir/debug_show.rs:214 | the literal pieces used for this line, joined by `{}`, give exactly the format string `  ALLOCATE_ARRAY {} SIZE {}` |
| DebugShow.ArrayGetFormat | crates/noirc_evaluator/src/brillig/brillig_ir/debug_show.rs:219 | the literal pieces used for this line, joined by `{}`, give exactly the format string `  ARRAY_GET {}[{}] -> {}` |
| DebugShow.ArraySetFormat | crates/noirc_evaluator/src/brillig/brillig_ir/debug_show.rs:224 | the literal pieces used for this line, joined by `{}`, give exactly the format string `  ARRAY_SET {}[{}] = {}` |
| DebugShow.CopyArrayFormat | crates/noirc_evaluator/src/brillig/brillig_ir/debug_show.rs:233-238 | the literal pieces used for this line, joined by `{}`, give exactly the format string `  COPY_ARRAY {} -> {} ({} ELEMENTS)` |
| DebugShow.EnterContextFormat | crates/noirc_evaluator/src/brillig/brillig_ir/debug_show.rs:245 | the literal pieces used for this line, joined by `{}`, give exactly the format string `{}:` |
| DebugShow.JumpFormat | crates/noirc_evaluator/src/brillig/brillig_ir/debug_show.rs:251 | the literal pieces used for this line, joined by `{}`, give exactly the format string `  JUMP_TO {}` |
| DebugShow.JumpIfFormat | crates/noirc_evaluator/src/brillig/brillig_ir/debug_show.rs:256 | the literal pieces used for this line, joined by `{}`, give exactly the format string `  JUMP_IF {} TO {}` |
| DebugShow.CastFormat | crates/noirc_evaluator/src/brillig/brillig_ir/debug_show.rs:265 | the literal pieces used for this line, joined by `{}`, give exactly the format string `  CAST {} FROM {} TO {} BITS` |
| DebugShow.Sha256Format | crates/noirc_evaluator/src/brillig/brillig_ir/debug_show.rs:272 | the literal pieces used for this line, joined by `{}`, give exactly the format string `  SHA256 {} -> {}` |
| DebugShow.Keccak256Format | crates/noirc_evaluator/src/brillig/brillig_ir/debug_show.rs:275 | the literal pieces used for this line, joined by `{}`, give exactly the format string `  KECCAK256 {} -> {}` |
| DebugShow.Blake2sFormat | crates/noirc_evaluator/src/brillig/brillig_ir/debug_show.rs:278 | the literal pieces used for this line, joined by `{}`, give exactly the format string `  BLAKE2S {} -> {}` |
| DebugShow.HashToField128SecurityFormat | crates/noirc_evaluator/src/brillig/brillig_ir/debug_show.rs:281 | the literal pieces used for this line, joined by `{}`, give exactly the format string `  HASH_TO_FIELD_128_SECURITY {} -> {}` |
| DebugShow.EcdsaSecp256k1Format | crates/noirc_evaluator/src/brillig/brillig_ir/debug_show.rs:290-298 | the literal pieces used for this line, joined by `{}`, give exactly the format string `  ECDSA_SECP256K1 {} {} {} {} -> {}` |
| DebugShow.AddExternalCallFormat | crates/noirc_evaluator/src/brillig/brillig_ir/debug_show.rs:304 | the literal pieces used for this line, joined by `{}`, give exactly the format string `  CALL {}` |
| DebugShow.ConstrainInstruction | crates/noirc_evaluator/src/brillig/brillig_ir/debug_show.rs:145-147 | `  ASSERT <cond> != 0` when on, nothing when off; the line is `format!` of `  ASSERT {} != 0` on the argument tokens |
| DebugShow.ReturnInstruction | crates/noirc_evaluator/src/brillig/brillig_ir/debug_show.rs:150-158 | `  // return <registers joined by ", ">;` when on; the line is `format!` of `  // return {};` on the argument tokens |
| DebugShow.MovInstruction | crates/noirc_evaluator/src/brillig/brillig_ir/debug_show.rs:161-163 | `  MOV <dst>, <src>` when on; the line is `format!` of `  MOV {}, {}` on the argument tokens |
| DebugShow.BinaryInstruction | crates/noirc_evaluator/src/brillig/brillig_ir/debug_show.rs:166-173 | `  <result> = <lhs> <op> <rhs>` when on: the result comes first, the operator sits between the operands; the line is `format!` of `  {} = {} {} {}` on the argument tokens |
| DebugShow.ConstInstruction | crates/noirc_evaluator/src/brillig/brillig_ir/debug_show.rs:176-178 | `  CONST <result> = <value in decimal>` when on; the line is `format!` of `  CONST {} = {}` on the argument tokens |
| DebugShow.NotInstruction | crates/noirc_evaluator/src/brillig/brillig_ir/debug_show.rs:181-183 | `  i<width>_NOT <result> = !<cond>` when on; the line is `format!` of `  i{}_NOT {} = !{}` on the argument tokens |
| DebugShow.ForeignCallInstruction | crates/noirc_evaluator/src/brillig/brillig_ir/debug_show.rs:186-192 | `  FOREIGN_CALL <name> (<inputs>) => <outputs>` when on, each slice joined by `", "`; the line is `format!` of `  FOREIGN_CALL {} ({}) => {}` on the argument tokens |
| DebugShow.LoadInstruction | crates/noirc_evaluator/src/brillig/brillig_ir/debug_show.rs:195-197 | `  LOAD <dst> = *<ptr>` when on; the line is `format!` of `  LOAD {} = *{}` on the argument tokens |
| DebugShow.StoreInstruction | crates/noirc_evaluator/src/brillig/brillig_ir/debug_show.rs:200-202 | `  STORE *<ptr> = <src>` when on; the line is `format!` of `  STORE *{} = {}` on the argument tokens |
| DebugShow.StopInstruction | crates/noirc_evaluator/src/brillig/brillig_ir/debug_show.rs:205-207 | `  STOP` when on |
| DebugShow.AllocateArrayInstruction | crates/noirc_evaluator/src/brillig/brillig_ir/debug_show.rs:210-215 | `  ALLOCATE_ARRAY <ptr> SIZE <size>` when on; the line is `format!` of `  ALLOCATE_ARRAY {} SIZE {}` on the argument tokens |
| DebugShow.ArrayGetInstruction | crates/noirc_evaluator/src/brillig/brillig_ir/debug_show.rs:218-220 | `  ARRAY_GET <ptr>[<index>] -> <result>` when on; the line is `format!` of `  ARRAY_GET {}[{}] -> {}` on the argument tokens |
| DebugShow.ArraySetInstruction | crates/noirc_evaluator/src/brillig/brillig_ir/debug_show.rs:223-225 | `  ARRAY_SET <ptr>[<index>] = <value>` when on; the line is `format!` of `  ARRAY_SET {}[{}] = {}` on the argument tokens |
| DebugShow.CopyArrayInstruction | crates/noirc_evaluator/src/brillig/brillig_ir/debug_show.rs:228-239 | `  COPY_ARRAY <src> -> <dst> (<count> ELEMENTS)` when on; the line is `format!` of `  COPY_ARRAY {} -> {} ({} ELEMENTS)` on the argument tokens |
| DebugShow.EnterContextInstruction | crates/noirc_evaluator/src/brillig/brillig_ir/debug_show.rs:242-247 | `<label>:` when on and the label does not end in `-b0`; nothing otherwise; the line is `format!` of `{}:` on the argument tokens |
| DebugShow.JumpInstruction | crates/noirc_evaluator/src/brillig/brillig_ir/debug_show.rs:250-252 | `  JUMP_TO <label>` when on; the line is `format!` of `  JUMP_TO {}` on the argument tokens |
| DebugShow.JumpIfInstruction | crates/noirc_evaluator/src/brillig/brillig_ir/debug_show.rs:255-257 | `  JUMP_IF <cond> TO <label>` when on; the line is `format!` of `  JUMP_IF {} TO {}` on the argument tokens |
| DebugShow.CastInstruction | crates/noirc_evaluator/src/brillig/brillig_ir/debug_show.rs:260-266 | `  CAST <dst> FROM <src> TO <bits> BITS` when on; the line is `format!` of `  CAST {} FROM {} TO {} BITS` on the argument tokens |
| DebugShow.BlackBoxOpInstruction | crates/noirc_evaluator/src/brillig/brillig_ir/debug_show.rs:269-300 | each hash prints its name, message, `->`, output; ECDSA prints hashed message, key x, key y, signature, `->`, result, in that order; nothing when off; each line is `format!` of that hash's format string on the field tokens |
| DebugShow.AddExternalCallInstruction | crates/noirc_evaluator/src/brillig/brillig_ir/debug_show.rs:303-305 | `  CALL <label>` when on; the line is `format!` of `  CALL {}` on the argument tokens |
| DebugShow.Show | crates/noirc_evaluator/src/brillig/brillig_ir/debug_show.rs:143-305 | one call prints a line exactly when the trace is on and the call is not a `-b0` label |
| DebugShow.Trace | crates/noirc_evaluator/src/brillig/brillig_ir/debug_show.rs:143-305 | with the trace off nothing is printed; with it on, one line per call except the suppressed `-b0` labels |
| DebugShow.TraceCollects | crates/noirc_evaluator/src/brillig/brillig_ir/debug_show.rs:143-305 | the trace is the lines of the calls, one printer applied to each call in order |
| DebugShow.TraceOne | crates/noirc_evaluator/src/brillig/brillig_ir/debug_show.rs:143-305 | one call alone traces to its line when it prints one, and to nothing otherwise |
| DebugShow.TraceAppend | crates/noirc_evaluator/src/brillig/brillig_ir/debug_show.rs:143-305 | the printer keeps no state: the trace of two runs of calls is the concatenation of their traces |
| DebugShow.TraceLines | crates/noirc_evaluator/src/brillig/brillig_ir/debug_show.rs:143-305 | every traced line is the line of one of the calls |
| DebugShow.FirstBlockLabel | crates/noirc_evaluator/src/brillig/brillig_ir/debug_show.rs:242-247 | a function label followed by its `-b0` block label prints the function label once |
| DebugShow.FirstBlockAlone | crates/noirc_evaluator/src/brillig/brillig_ir/debug_show.rs:242-247 | a `-b0` label prints nothing, even with no function label before it |
| OperandDecode.ParseRegister | crates/noirc_evaluator/src/brillig/brillig_ir/debug_show.rs:29-37 | `Stack` reads as the stack pointer; any other accepted text is `R` followed by digits |
| OperandDecode.RegisterRoundTrip | crates/noirc_evaluator/src/brillig/brillig_ir/debug_show.rs:29-37 | every register token reads back as its register |
| OperandDecode.ParseOperand | crates/noirc_evaluator/src/brillig/brillig_ir/debug_show.rs:114-122 | text without `[` can only be a register; a heap operand's text holds `[` and ends in `]` |
| OperandDecode.ParseHeap | crates/noirc_evaluator/src/brillig/brillig_ir/debug_show.rs:39-49 | a bracketed operand is a heap array exactly when its bound is decimal, and never a register |
| OperandDecode.BracketSplit | crates/noirc_evaluator/src/brillig/brillig_ir/debug_show.rs:39-49 | `<p>[0..<b>]` splits back into its pointer and bound when the pointer holds no `[` |
| OperandDecode.OperandRoundTrip | crates/noirc_evaluator/src/brillig/brillig_ir/debug_show.rs:114-122 | every operand token reads back as its operand |
| OperandDecode.OperandTokenInjective | crates/noirc_evaluator/src/brillig/brillig_ir/debug_show.rs:114-122 | two operands print alike if and only if they are equal |
| OperandDecode.ParseEach | crates/noirc_evaluator/src/brillig/brillig_ir/debug_show.rs:124-128 | reading a list of tokens gives one operand per token |
| OperandDecode.ParseOperandList | crates/noirc_evaluator/src/brillig/brillig_ir/debug_show.rs:124-128 | empty text reads as the empty slice; otherwise one operand per comma-separated part |
| OperandDecode.OperandTokensAt | crates/noirc_evaluator/src/brillig/brillig_ir/debug_show.rs:124-128 | the i-th token of a slice is the token of its i-th element |
| OperandDecode.ParseEachTokens | crates/noirc_evaluator/src/brillig/brillig_ir/debug_show.rs:124-128 | the element tokens of a slice read back as the slice |
| OperandDecode.OperandListRoundTrip | crates/noirc_evaluator/src/brillig/brillig_ir/debug_show.rs:124-128 | every printed operand slice reads back as the slice |
| OperandDecode.OperandListTokenInjective | crates/noirc_evaluator/src/brillig/brillig_ir/debug_show.rs:124-128 | two operand slices print alike if and only if they are equal |

## Left out

- Writing to standard output (`println!`): each entry point returns the line it would print, and `Trace` collects the lines in call order.
- `ENABLE_DEBUG_TRACE` is a parameter (`enabled`) rather than the constant `true`, so both settings are covered.
- `BRILLIG_MEMORY_ADDRESSING_BIT_SIZE` and `ReservedRegisters::stack_pointer()` are defined outside this file and are not part of this model; they are the `Config` fields.
- The `DebugToString` impl for `Value` (`Value::to_usize` and then decimal text): `Value` is the VM's field element type, which is not part of this model, so `const_instruction` receives the resulting number directly and prints it with `Decimal`.
- The `usize` and `u32` bounds of sizes, widths and register indices: they are unbounded naturals here, since rendering a number in decimal does not depend on its width.
- The field types of `BlackBoxOp` (heap vectors, heap arrays, registers) are defined in the VM crate, which is not part of this model; each field is a `RegisterOrMemory`, which renders every one of those types with the same rule.
- `format!` is modelled for `{}` directives only; escaped braces, positional and named arguments and format specs do not occur in this file.
- DebugShow.OperandTokens: states the number of tokens; the element-by-element content is the separate lemma `OperandDecode.OperandTokensAt`, which keeps the per-entry-point proofs small.
- DebugShow.RegisterTokens: states the number of tokens; the element-by-element content is the separate lemma `DebugShow.RegisterTokensAt`.
- DebugShow.OperandListToken: states the empty and one-element cases; the general case is characterised by `OperandDecode.OperandListRoundTrip`.
- The test runner (`crates/nargo_cli/src/cli/test_cmd.rs`) and the execution semantics of the Brillig instructions: the printer only renders them.
