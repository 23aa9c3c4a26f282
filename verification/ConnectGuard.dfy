/**
 The eBPF program that exempts device-bound sockets from redirection, run in an interpreter
 that faults on anything the program has no right to do.
 */
module ConnectGuard {
  import opened Options

  datatype Reg = R0 | R1 | R2 | R3 | R4 | R5 | R6 | RFP

  /** A 64-bit number in two halves. */
  datatype U64 = U64(hi: bv32, lo: bv32)

  /** What a register may hold; pointers cannot be forged from numbers. */
  datatype Val = Num(n: U64) | Ctx | Sock | Frame(off: int) | Nothing

  datatype Regs = Regs(r0: Val, r1: Val, r2: Val, r3: Val, r4: Val, r5: Val, r6: Val)
  {
    function Get(r: Reg): Val
    {
      match r
      case R0 => r0 case R1 => r1 case R2 => r2 case R3 => r3 case R4 => r4 case R5 => r5 case R6 => r6
      case RFP => Frame(0)
    }

    function Set(r: Reg, v: Val): Regs
    {
      match r
      case R0 => this.(r0 := v) case R1 => this.(r1 := v) case R2 => this.(r2 := v) case R3 => this.(r3 := v)
      case R4 => this.(r4 := v) case R5 => this.(r5 := v) case R6 => this.(r6 := v) case RFP => this
    }

    /** A helper call leaves its result in R0 and spoils R1 to R5. */
    function Called(v: Val): Regs { Regs(v, Nothing, Nothing, Nothing, Nothing, Nothing, r6) }
  }

  datatype Size = Word | DWord
  datatype Operand = Imm(i: bv32) | Wide(u: U64) | Of(r: Reg)
  datatype Test = JEq | JNE | JSet

  datatype Op =
    | Mov(dst: Reg, src: Operand)
    | LoadMem(dst: Reg, base: Reg, off: int, size: Size)
    | StoreWord(base: Reg, off: int, value: Reg)
    | Or(dst: Reg, imm: bv32)
    | AddImm(dst: Reg, amount: int)
    | Jump(test: Test, reg: Reg, other: Operand, target: string)
    | GetNetnsCookie
    | Setsockopt
    | Return

  datatype Line = Line(op: Op, symbol: string := "")

  const ADDR_PROTOCOL := 36
  const ADDR_SOCKET := 64
  const SOCK_BOUND_DEV := 0
  const SOCK_MARK := 16
  const BYPASS_MARK: bv32 := 0x80

  /** The connecting socket and the kernel around it; `refusal` is what setsockopt answers. */
  datatype Socket = Socket(bound: bv32, mark: bv32)
  datatype Kernel = Kernel(protocol: bv32, netns: U64, socket: Option<Socket>, refusal: U64)

  datatype Machine = Machine(pc: nat, regs: Regs, slot: Option<bv32>, kernel: Kernel)

  datatype Outcome = Fault | Exit(verdict: U64, kernel: Kernel)

  /** Line by line, in order. */
  function LineAt(cookie: U64, i: nat): Line
  {
    match i
    case 0 => Line(Mov(R6, Of(R1)))
    case 1 => Line(LoadMem(R2, R6, ADDR_PROTOCOL, Word))
    case 2 => Line(Jump(JNE, R2, Imm(6), "allow"))
    case 3 => Line(GetNetnsCookie)
    case 4 => Line(Mov(R2, Wide(cookie)))
    case 5 => Line(Jump(JNE, R0, Of(R2), "allow"))
    case 6 => Line(LoadMem(R2, R6, ADDR_SOCKET, DWord))
    case 7 => Line(Jump(JEq, R2, Imm(0), "allow"))
    case 8 => Line(LoadMem(R3, R2, SOCK_BOUND_DEV, Word))
    case 9 => Line(Jump(JEq, R3, Imm(0), "allow"))
    case 10 => Line(LoadMem(R3, R2, SOCK_MARK, Word))
    case 11 => Line(Jump(JSet, R3, Imm(BYPASS_MARK), "allow"))
    case 12 => Line(Or(R3, BYPASS_MARK))
    case 13 => Line(StoreWord(RFP, -4, R3))
    case 14 => Line(Mov(R1, Of(R6)))
    case 15 => Line(Mov(R2, Imm(1)))
    case 16 => Line(Mov(R3, Imm(36)))
    case 17 => Line(Mov(R4, Of(RFP)))
    case 18 => Line(AddImm(R4, -4))
    case 19 => Line(Mov(R5, Imm(4)))
    case 20 => Line(Setsockopt)
    case 21 => Line(Jump(JEq, R0, Imm(0), "allow"))
    case 22 => Line(Mov(R0, Imm(0)))
    case 23 => Line(Return)
    case 24 => Line(Mov(R0, Imm(1)), "allow")
    case _ => Line(Return)
  }

  function Program(cookie: U64): seq<Line> { seq(26, i requires 0 <= i => LineAt(cookie, i)) }

  // ---------------------------------------------------------------- interpreter

  /** The line a symbol stands on; past the end if there is none. */
  function Target(p: seq<Line>, symbol: string, i: nat): nat
    requires i <= |p|
    decreases |p| - i
  {
    if i == |p| || p[i].symbol == symbol then i else Target(p, symbol, i + 1)
  }

  /** A 32-bit word, or an immediate that is not negative, as a register holds it. */
  function Word32(w: bv32): U64 { U64(0, w) }

  function Operands(rs: Regs, o: Operand): Val
  {
    match o
    case Imm(i) => Num(Word32(i))
    case Wide(u) => Num(u)
    case Of(r) => rs.Get(r)
  }

  /** Reads of the context and of a socket, at the offsets the kernel gives their fields. */
  function Load(v: Val, off: int, size: Size, k: Kernel): Val
  {
    match v
    case Ctx =>
      if off == 36 && size == Word then Num(Word32(k.protocol))
      else if off == 64 && size == DWord then if k.socket.Some? then Sock else Num(Word32(0))
      else Nothing
    case Sock =>
      if k.socket.Some? && off == 0 && size == Word then Num(Word32(k.socket.value.bound))
      else if k.socket.Some? && off == 16 && size == Word then Num(Word32(k.socket.value.mark))
      else Nothing
    case _ => Nothing
  }

  /** None if the operands cannot be compared. A live pointer is not zero. */
  function Taken(t: Test, a: Val, b: Val): Option<bool>
  {
    match (a, b)
    case (Num(x), Num(y)) =>
      Some(match t case JEq => x == y case JNE => x != y case JSet => x.hi & y.hi != 0 || x.lo & y.lo != 0)
    case (Sock, Num(y)) => if y == Word32(0) && t != JSet then Some(t == JNE) else None
    case _ => None
  }

  /** Setting SO_MARK from the word the arguments point at. */
  predicate MarkCall(m: Machine)
  {
    var r := m.regs;
    && r.r1 == Ctx && r.r2 == Num(Word32(1)) && r.r3 == Num(Word32(36)) && r.r4 == Frame(-4) && r.r5 == Num(Word32(4))
    && m.slot.Some? && m.kernel.socket.Some?
  }

  function Marked(k: Kernel, mark: bv32): Kernel
  {
    if k.refusal == Word32(0) && k.socket.Some? then k.(socket := Some(k.socket.value.(mark := mark))) else k
  }

  /** One instruction other than a jump or a return; None is a fault. */
  function Effect(op: Op, m: Machine): Option<Machine>
  {
    var next := m.(pc := m.pc + 1);
    match op
    case Mov(d, o) =>
      var v := Operands(m.regs, o);
      if v == Nothing then None else Some(next.(regs := m.regs.Set(d, v)))
    case LoadMem(d, b, off, size) =>
      var v := Load(m.regs.Get(b), off, size, m.kernel);
      if v == Nothing then None else Some(next.(regs := m.regs.Set(d, v)))
    case StoreWord(b, off, s) =>
      if m.regs.Get(b) == Frame(-4 - off) && m.regs.Get(s).Num? then
        Some(next.(slot := Some(m.regs.Get(s).n.lo)))
      else None
    case Or(d, i) =>
      if m.regs.Get(d).Num? then
        var n := m.regs.Get(d).n;
        Some(next.(regs := m.regs.Set(d, Num(n.(lo := n.lo | i)))))
      else None
    case AddImm(d, i) =>
      if m.regs.Get(d).Frame? then Some(next.(regs := m.regs.Set(d, Frame(m.regs.Get(d).off + i)))) else None
    case GetNetnsCookie => if m.regs.r1 == Ctx then Some(next.(regs := m.regs.Called(Num(m.kernel.netns)))) else None
    case Setsockopt =>
      if MarkCall(m) then
        Some(next.(regs := m.regs.Called(Num(m.kernel.refusal)), kernel := Marked(m.kernel, m.slot.value)))
      else None
    case _ => None
  }

  /** Jumps lead forward, as the kernel demands, so every run ends. */
  function Run(p: seq<Line>, m: Machine): Outcome
    decreases |p| - m.pc
  {
    if m.pc >= |p| then Fault
    else
      var op := p[m.pc].op;
      match op
      case Return => if m.regs.r0.Num? then Exit(m.regs.r0.n, m.kernel) else Fault
      case Jump(t, r, o, symbol) =>
        var taken := Taken(t, m.regs.Get(r), Operands(m.regs, o));
        var to := Target(p, symbol, 0);
        if taken.None? || to <= m.pc then Fault
        else Run(p, m.(pc := if taken.value then to else m.pc + 1))
      case _ =>
        var n := Effect(op, m);
        if n.None? || n.value.pc <= m.pc then Fault else Run(p, n.value)
  }

  function Entry(k: Kernel): Machine
  {
    Machine(0, Regs(Nothing, Ctx, Nothing, Nothing, Nothing, Nothing, Nothing), None, k)
  }

  // ------------------------------------------------------------- running it once

  lemma {:induction false} TargetIs(p: seq<Line>, symbol: string, i: nat, k: nat)
    requires i <= k < |p| && p[k].symbol == symbol && forall j | i <= j < k :: p[j].symbol != symbol
    ensures Target(p, symbol, i) == k
    decreases k - i
  {
    if i < k { TargetIs(p, symbol, i + 1, k); }
  }

  lemma {:induction false} AllowIs(cookie: U64)
    ensures |Program(cookie)| == 26 && Target(Program(cookie), "allow", 0) == 24
  {
    var p := Program(cookie);
    assert forall j | 0 <= j < 24 :: p[j].symbol == "";
    TargetIs(p, "allow", 0, 24);
  }

  /** The only symbol, known once and for all. */
  ghost predicate Loaded(p: seq<Line>, cookie: U64)
  {
    p == Program(cookie) && |p| == 26 && Target(p, "allow", 0) == 24
  }

  lemma {:induction false} Runs1(p: seq<Line>, m: Machine, n: Machine)
    requires m.pc < |p| && !p[m.pc].op.Return? && !p[m.pc].op.Jump?
    requires Effect(p[m.pc].op, m) == Some(n) && n.pc > m.pc
    ensures Run(p, m) == Run(p, n)
  {}

  /** A jump to the label, taken or not. */
  lemma {:induction false} Branch(p: seq<Line>, m: Machine, op: Op, taken: bool)
    requires |p| == 26 && Target(p, "allow", 0) == 24 && m.pc < 24
    requires p[m.pc].op == op && op.Jump? && op.target == "allow"
    requires Taken(op.test, m.regs.Get(op.reg), Operands(m.regs, op.other)) == Some(taken)
    ensures Run(p, m) == Run(p, m.(pc := if taken then 24 else m.pc + 1))
  {}

  lemma {:induction false} Allows(p: seq<Line>, cookie: U64, m: Machine)
    requires Loaded(p, cookie) && m.pc == 24
    ensures Run(p, m) == Exit(Word32(1), m.kernel)
  {
    var n := m.(pc := 25, regs := m.regs.Set(R0, Num(Word32(1))));
    Runs1(p, m, n);
  }

  lemma {:induction false} Rejects(p: seq<Line>, cookie: U64, m: Machine)
    requires Loaded(p, cookie) && m.pc == 22
    ensures Run(p, m) == Exit(Word32(0), m.kernel)
  {
    var n := m.(pc := 23, regs := m.regs.Set(R0, Num(Word32(0))));
    Runs1(p, m, n);
  }

  lemma {:induction false} Answers(p: seq<Line>, cookie: U64, m: Machine)
    requires Loaded(p, cookie) && m.pc == 21 && m.regs.r0.Num?
    ensures Run(p, m) == Exit(Word32(if m.regs.r0.n == Word32(0) then 1 else 0), m.kernel)
  {
    Branch(p, m, Jump(JEq, R0, Imm(0), "allow"), m.regs.r0.n == Word32(0));
    if m.regs.r0.n == Word32(0) { Allows(p, cookie, m.(pc := 24)); } else { Rejects(p, cookie, m.(pc := 22)); }
  }

  /** How a guarded connect ends once the new mark is in the stack slot. */
  function Verdict(k: Kernel, mark: bv32): Outcome
  {
    Exit(Word32(if k.refusal == Word32(0) then 1 else 0), Marked(k, mark))
  }

  lemma {:induction false} Sets(p: seq<Line>, cookie: U64, m: Machine)
    requires Loaded(p, cookie) && m.pc == 20 && MarkCall(m)
    ensures Run(p, m) == Verdict(m.kernel, m.slot.value)
  {
    var a := m.(pc := 21, regs := m.regs.Called(Num(m.kernel.refusal)), kernel := Marked(m.kernel, m.slot.value));
    Runs1(p, m, a);
    Answers(p, cookie, a);
  }

  ghost predicate Ready(m: Machine, pc: nat) { m.pc == pc && m.regs.r6 == Ctx && m.slot.Some? && m.kernel.socket.Some? }

  lemma {:induction false} Lays18(p: seq<Line>, cookie: U64, m: Machine)
    requires Loaded(p, cookie) && Ready(m, 18)
    requires m.regs.r1 == Ctx && m.regs.r2 == Num(Word32(1)) && m.regs.r3 == Num(Word32(36)) && m.regs.r4 == Frame(0)
    ensures Run(p, m) == Verdict(m.kernel, m.slot.value)
  {
    var a := m.(pc := 19, regs := m.regs.Set(R4, Frame(-4)));
    Runs1(p, m, a);
    var b := a.(pc := 20, regs := a.regs.Set(R5, Num(Word32(4))));
    Runs1(p, a, b);
    Sets(p, cookie, b);
  }

  lemma {:induction false} Lays16(p: seq<Line>, cookie: U64, m: Machine)
    requires Loaded(p, cookie) && Ready(m, 16) && m.regs.r1 == Ctx && m.regs.r2 == Num(Word32(1))
    ensures Run(p, m) == Verdict(m.kernel, m.slot.value)
  {
    var a := m.(pc := 17, regs := m.regs.Set(R3, Num(Word32(36))));
    Runs1(p, m, a);
    var b := a.(pc := 18, regs := a.regs.Set(R4, Frame(0)));
    Runs1(p, a, b);
    Lays18(p, cookie, b);
  }

  lemma {:induction false} Lays14(p: seq<Line>, cookie: U64, m: Machine)
    requires Loaded(p, cookie) && Ready(m, 14)
    ensures Run(p, m) == Verdict(m.kernel, m.slot.value)
  {
    var a := m.(pc := 15, regs := m.regs.Set(R1, Ctx));
    Runs1(p, m, a);
    var b := a.(pc := 16, regs := a.regs.Set(R2, Num(Word32(1))));
    Runs1(p, a, b);
    Lays16(p, cookie, b);
  }

  /** The new mark goes to the stack. */
  lemma {:induction false} Stores(p: seq<Line>, cookie: U64, m: Machine, mark: bv32)
    requires Loaded(p, cookie) && m.pc == 13 && m.kernel.socket.Some? && m.regs.r6 == Ctx
        && m.regs.r3 == Num(Word32(mark))
    ensures Run(p, m) == Verdict(m.kernel, mark)
  {
    var b := m.(pc := 14, slot := Some(mark));
    Runs1(p, m, b);
    Lays14(p, cookie, b);
  }

  lemma {:induction false} Prepares(p: seq<Line>, cookie: U64, m: Machine, s: Socket)
    requires Loaded(p, cookie) && m.pc == 12 && m.kernel.socket == Some(s)
    requires m.regs.r3 == Num(Word32(s.mark)) && m.regs.r6 == Ctx
    ensures Run(p, m) == Verdict(m.kernel, s.mark | 0x80)
  {
    var a := m.(pc := 13, regs := m.regs.Set(R3, Num(Word32(s.mark | 0x80))));
    Runs1(p, m, a);
    Stores(p, cookie, a, s.mark | 0x80);
  }

  lemma {:induction false} Tests(p: seq<Line>, cookie: U64, m: Machine, s: Socket)
    requires Loaded(p, cookie) && m.pc == 11 && m.kernel.socket == Some(s)
    requires m.regs.r3 == Num(Word32(s.mark)) && m.regs.r6 == Ctx
    ensures Run(p, m) == if s.mark & 0x80 == 0 then Verdict(m.kernel, s.mark | 0x80) else Exit(Word32(1), m.kernel)
  {
    Branch(p, m, Jump(JSet, R3, Imm(0x80), "allow"), s.mark & 0x80 != 0);
    if s.mark & 0x80 == 0 { Prepares(p, cookie, m.(pc := 12), s); } else { Allows(p, cookie, m.(pc := 24)); }
  }

  lemma {:induction false} Reads(p: seq<Line>, cookie: U64, m: Machine, s: Socket)
    requires Loaded(p, cookie) && m.pc == 10 && m.kernel.socket == Some(s) && m.regs.r2 == Sock && m.regs.r6 == Ctx
    ensures Run(p, m) == if s.mark & 0x80 == 0 then Verdict(m.kernel, s.mark | 0x80) else Exit(Word32(1), m.kernel)
  {
    var c := m.(pc := 11, regs := m.regs.Set(R3, Num(Word32(s.mark))));
    Runs1(p, m, c);
    Tests(p, cookie, c, s);
  }

  lemma {:induction false} Filters(p: seq<Line>, cookie: U64, m: Machine, s: Socket)
    requires Loaded(p, cookie) && m.pc == 9 && m.kernel.socket == Some(s) && m.regs.r2 == Sock && m.regs.r6 == Ctx
    requires m.regs.r3 == Num(Word32(s.bound))
    ensures Run(p, m) == if Concerned(s) then Verdict(m.kernel, s.mark | 0x80) else Exit(Word32(1), m.kernel)
  {
    Branch(p, m, Jump(JEq, R3, Imm(0), "allow"), s.bound == 0);
    if s.bound == 0 { Allows(p, cookie, m.(pc := 24)); } else { Reads(p, cookie, m.(pc := 10), s); }
  }

  /** With a socket in hand: its device and its mark decide. */
  lemma {:induction false} Examines(p: seq<Line>, cookie: U64, m: Machine, s: Socket)
    requires Loaded(p, cookie) && m.pc == 8 && m.kernel.socket == Some(s) && m.regs.r2 == Sock && m.regs.r6 == Ctx
    ensures Run(p, m) == if Concerned(s) then Verdict(m.kernel, s.mark | 0x80) else Exit(Word32(1), m.kernel)
  {
    var a := m.(pc := 9, regs := m.regs.Set(R3, Num(Word32(s.bound))));
    Runs1(p, m, a);
    Filters(p, cookie, a, s);
  }

  lemma {:induction false} Misses(p: seq<Line>, cookie: U64, m: Machine)
    requires Loaded(p, cookie) && m.pc == 7 && m.regs.r2 == Num(Word32(0))
    ensures Run(p, m) == Exit(Word32(1), m.kernel)
  {
    Branch(p, m, Jump(JEq, R2, Imm(0), "allow"), true);
    Allows(p, cookie, m.(pc := 24));
  }

  lemma {:induction false} Finds(p: seq<Line>, cookie: U64, m: Machine, s: Socket)
    requires Loaded(p, cookie) && m.pc == 7 && m.kernel.socket == Some(s) && m.regs.r2 == Sock && m.regs.r6 == Ctx
    ensures Run(p, m) == if Concerned(s) then Verdict(m.kernel, s.mark | 0x80) else Exit(Word32(1), m.kernel)
  {
    Branch(p, m, Jump(JEq, R2, Imm(0), "allow"), false);
    Examines(p, cookie, m.(pc := 8), s);
  }

  /** What becomes of a TCP connect from the guarded namespace. */
  function Decision(k: Kernel): Outcome
  {
    if k.socket.Some? && Concerned(k.socket.value) then Verdict(k, k.socket.value.mark | 0x80) else Exit(Word32(1), k)
  }

  lemma {:induction false} Fetches(p: seq<Line>, cookie: U64, m: Machine)
    requires Loaded(p, cookie) && m.pc == 6 && m.regs.r6 == Ctx
    ensures Run(p, m) == Decision(m.kernel)
  {
    var a := m.(pc := 7, regs := m.regs.Set(R2, if m.kernel.socket.Some? then Sock else Num(Word32(0))));
    Runs1(p, m, a);
    if m.kernel.socket.None? { Misses(p, cookie, a); } else { Finds(p, cookie, a, m.kernel.socket.value); }
  }

  lemma {:induction false} Compares(p: seq<Line>, cookie: U64, m: Machine)
    requires Loaded(p, cookie) && m.pc == 5 && m.regs.r6 == Ctx && m.regs.r0 == Num(m.kernel.netns)
        && m.regs.r2 == Num(cookie)
    ensures Run(p, m) == if m.kernel.netns == cookie then Decision(m.kernel) else Exit(Word32(1), m.kernel)
  {
    Branch(p, m, Jump(JNE, R0, Of(R2), "allow"), m.kernel.netns != cookie);
    if m.kernel.netns != cookie { Allows(p, cookie, m.(pc := 24)); } else { Fetches(p, cookie, m.(pc := 6)); }
  }

  lemma {:induction false} Asks(p: seq<Line>, cookie: U64, m: Machine)
    requires Loaded(p, cookie) && m.pc == 3 && m.regs.r6 == Ctx && m.regs.r1 == Ctx
    ensures Run(p, m) == if m.kernel.netns == cookie then Decision(m.kernel) else Exit(Word32(1), m.kernel)
  {
    var d := m.(pc := 4, regs := m.regs.Called(Num(m.kernel.netns)));
    Runs1(p, m, d);
    var e := d.(pc := 5, regs := d.regs.Set(R2, Num(cookie)));
    Runs1(p, d, e);
    Compares(p, cookie, e);
  }

  lemma {:induction false} Sorts(p: seq<Line>, cookie: U64, m: Machine)
    requires Loaded(p, cookie) && m.pc == 2 && m.regs.r6 == Ctx && m.regs.r1 == Ctx
    requires m.regs.r2 == Num(Word32(m.kernel.protocol))
    ensures Run(p, m) ==
            if m.kernel.protocol == 6 && m.kernel.netns == cookie then Decision(m.kernel) else Exit(Word32(1), m.kernel)
  {
    Branch(p, m, Jump(JNE, R2, Imm(6), "allow"), m.kernel.protocol != 6);
    if m.kernel.protocol != 6 { Allows(p, cookie, m.(pc := 24)); } else { Asks(p, cookie, m.(pc := 3)); }
  }

  predicate Concerned(s: Socket) { s.bound != 0 && s.mark & 0x80 == 0 }

  /** The connects the guard is for. */
  predicate Guarded(k: Kernel, cookie: U64)
  {
    k.protocol == 6 && k.netns == cookie && k.socket.Some? && Concerned(k.socket.value)
  }

  /**
   On every context the program runs to its end without a fault. It allows the connect and
   changes nothing unless the connect is a guarded one; then the mark gains the bypass bit and
   no other, and the connect is allowed, if and only if setsockopt succeeded.
   */
  lemma {:induction false} GuardBehaves(k: Kernel, cookie: U64)
    ensures Run(Program(cookie), Entry(k)) ==
            if !Guarded(k, cookie) then Exit(Word32(1), k)
            else if k.refusal != Word32(0) then Exit(Word32(0), k)
            else Exit(Word32(1), k.(socket := Some(k.socket.value.(mark := k.socket.value.mark | 0x80))))
  {
    AllowIs(cookie);
    Starts(Program(cookie), cookie, Entry(k));
  }

  lemma {:induction false} Starts(p: seq<Line>, cookie: U64, m: Machine)
    requires Loaded(p, cookie) && m.pc == 0 && m.regs.r1 == Ctx
    ensures Run(p, m) ==
            if m.kernel.protocol == 6 && m.kernel.netns == cookie then Decision(m.kernel) else Exit(Word32(1), m.kernel)
  {
    var a := m.(pc := 1, regs := m.regs.Set(R6, Ctx));
    Runs1(p, m, a);
    Looks(p, cookie, a);
  }

  lemma {:induction false} LookStep(p: seq<Line>, cookie: U64, m: Machine)
    requires Loaded(p, cookie) && m.pc == 1 && m.regs.r6 == Ctx
    ensures Run(p, m) == Run(p, m.(pc := 2, regs := m.regs.Set(R2, Num(Word32(m.kernel.protocol)))))
  {
    Runs1(p, m, m.(pc := 2, regs := m.regs.Set(R2, Num(Word32(m.kernel.protocol)))));
  }

  lemma {:induction false} Looks(p: seq<Line>, cookie: U64, m: Machine)
    requires Loaded(p, cookie) && m.pc == 1 && m.regs.r1 == Ctx && m.regs.r6 == Ctx
    ensures Run(p, m) ==
            if m.kernel.protocol == 6 && m.kernel.netns == cookie then Decision(m.kernel) else Exit(Word32(1), m.kernel)
  {
    LookStep(p, cookie, m);
    Sorts(p, cookie, m.(pc := 2, regs := m.regs.Set(R2, Num(Word32(m.kernel.protocol)))));
  }

  /** The bypass bit is there afterwards, and every other bit is as before. */
  lemma {:induction false} OnlyTheBypassBit(mark: bv32)
    ensures (mark | BYPASS_MARK) & BYPASS_MARK == BYPASS_MARK
    ensures (mark | BYPASS_MARK) & !BYPASS_MARK == mark & !BYPASS_MARK
  {}
}
