/** The assembly text the generator writes into its output stream, one
    datatype value per piece it appends (Compiler/Generation.cpp). Labels are
    kept as the number `create_label` drew; their text is "label" followed by
    that number. */
module Asm {
  import opened Numerals

  datatype Reg = Rax | Rbx | Rdi

  function RegName(r: Reg): string
  {
    match r
    case Rax => "rax"
    case Rbx => "rbx"
    case Rdi => "rdi"
  }

  /** What `push` is given: a register, or the stack slot `k` bytes above
      the stack pointer. */
  datatype Operand = RegOp(reg: Reg) | Slot(offset: nat)

  function OperandText(o: Operand): string
  {
    match o
    case RegOp(r) => RegName(r)
    case Slot(k) => "QWORD [rsp + " + NatToString(k) + "]"
  }

  datatype ArithOp = AddOp | SubOp | MulOp | DivOp

  datatype Line =
    | Header                  // the program prologue
    | Mov(dst: Reg, imm: string)
    | Push(src: Operand)
    | Pop(dst: Reg)
    | Arith(op: ArithOp)
    | AddRsp(bytes: nat)      // the single stack release of `end_scope`
    | Test
    | Jz(lab: nat)
    | Jmp(lab: nat)
    | LabelColon(lab: nat)    // `label:` before an elif's successor
    | LabelSemi(lab: nat)     // `label;` after an if with no successor
    | EndLabel(lab: nat)      // `label: ` (trailing space) ending an if chain
    | Store(offset: nat)      // the assignment store, written without `+`
    | Syscall
    | FinalSyscall            // the trailer's last line, with no newline

  function LabelName(n: nat): (s: string)
    ensures |s| > 5 && s[..5] == "label"
  {
    "label" + NatToString(n)
  }

  /** Two labels have the same text only if they were drawn as the same
      number. */
  lemma LabelNameInjective(m: nat, n: nat)
    ensures LabelName(m) == LabelName(n) ==> m == n
  {
    if LabelName(m) == LabelName(n) {
      assert NatToString(m) == LabelName(m)[5..];
      assert NatToString(n) == LabelName(n)[5..];
      NatToStringInjective(m, n);
    }
  }

  function Text(l: Line): string
  {
    match l
    case Header => "global _start\n_start:\n"
    case Mov(r, imm) => "    mov " + RegName(r) + ", " + imm + "\n"
    case Push(o) => "    push " + OperandText(o) + "\n"
    case Pop(r) => "    pop " + RegName(r) + "\n"
    case Arith(op) =>
      (match op
       case AddOp => "    add rax, rbx\n"
       case SubOp => "    sub rax, rbx\n"
       case MulOp => "    mul rbx\n"
       case DivOp => "    div rbx\n")
    case AddRsp(b) => "    add rsp, " + NatToString(b) + "\n"
    case Test => "    test rax, rax\n"
    case Jz(n) => "    jz " + LabelName(n) + "\n"
    case Jmp(n) => "    jmp " + LabelName(n) + "\n"
    case LabelColon(n) => LabelName(n) + ":\n"
    case LabelSemi(n) => LabelName(n) + ";\n"
    case EndLabel(n) => LabelName(n) + ": \n"
    case Store(k) => "    mov [rsp" + NatToString(k) + "], rax\n"
    case Syscall => "    syscall\n"
    case FinalSyscall => "    syscall"
  }

  /** The strings concatenated in order. */
  function Join(ts: seq<string>): string
  {
    if ts == [] then "" else Join(ts[..|ts| - 1]) + ts[|ts| - 1]
  }

  lemma {:induction false} JoinAppend(a: seq<string>, b: seq<string>)
    ensures Join(a + b) == Join(a) + Join(b)
    decreases |b|
  {
    if b == [] {
      assert a + b == a;
    } else {
      var b' := b[..|b| - 1];
      assert (a + b)[..|a + b| - 1] == a + b';
      JoinAppend(a, b');
    }
  }

  /** The content of the output stream after the lines were appended in
      order. */
  function Render(ls: seq<Line>): string
  {
    Join(seq(|ls|, k requires 0 <= k < |ls| => Text(ls[k])))
  }

  /** Appending lines appends their text: the stream's content depends only
      on what was written, not on how the writes were grouped. */
  lemma RenderAppend(a: seq<Line>, b: seq<Line>)
    ensures Render(a + b) == Render(a) + Render(b)
  {
    var ta := seq(|a|, k requires 0 <= k < |a| => Text(a[k]));
    var tb := seq(|b|, k requires 0 <= k < |b| => Text(b[k]));
    assert seq(|a + b|, k requires 0 <= k < |a + b| => Text((a + b)[k])) == ta + tb;
    JoinAppend(ta, tb);
  }

  lemma RenderSingle(l: Line)
    ensures Render([l]) == Text(l)
  {
    var ts := seq(1, k requires 0 <= k < 1 => Text([l][k]));
    assert ts == [Text(l)];
    assert ts[..0] == [];
    assert Join(ts) == Join([]) + Text(l);
  }

  /** The lines that are label definitions, with the label they define. */
  predicate Defines(l: Line, n: nat)
  {
    (l.LabelColon? || l.LabelSemi? || l.EndLabel?) && l.lab == n
  }
}
