/** 2015 day 7: a circuit of 16-bit wires driven by literals and logic gates, evaluated on demand
    and memoised per wire. */
module Y2015Day07 {
  import opened Outcomes
  import opened Text

  /** A `u16` signal. */
  type Bits16 = bv16

  /** A gate input: a literal signal or the name of another wire. */
  datatype Value = Literal(lit: Bits16) | Variable(name: string)

  datatype Gate =
    | Assignment(a: Value)
    | And(a: Value, b: Value)
    | Or(a: Value, b: Value)
    | LShift(a: Value, b: Value)
    | RShift(a: Value, b: Value)
    | Not(a: Value)

  predicate Binary(g: Gate) { g.And? || g.Or? || g.LShift? || g.RShift? }

  /** A wire: the gate that drives it and, once computed, its signal. */
  datatype WireState = WireState(gate: Gate, cached: Option<Bits16>)

  /** A line "<gate> -> <wire>". */
  datatype Command = Command(gate: Gate, assignment: string)

  // ---------------------------------------------------------------------------------------------
  // 16-bit operators

  /** `!` on `u16`: the bitwise complement. */
  function NotBits(x: Bits16): (z: Bits16)
    ensures z & x == 0 && z | x == 0xFFFF
  {
    !x
  }

  /** A signal and its complement share no bit and together cover all sixteen; complementing
      twice gives the signal back. */
  lemma ComplementLaws(x: Bits16)
    ensures NotBits(NotBits(x)) == x
  {
  }

  /** `x << n` on `u16`: bits shifted past bit 15 are lost; a shift by 16 or more panics. */
  function ShiftLeft(x: Bits16, n: Bits16): (r: Result<Bits16>)
    ensures r.Ok? <==> n < 16
    ensures r.Ok? ==> r.value & ((1 << n) - 1) == 0
  {
    if n >= 16 then Err("panic: attempt to shift left with overflow") else Ok(x << n)
  }

  /** `x >> n` on `u16`; a shift by 16 or more panics. */
  function ShiftRight(x: Bits16, n: Bits16): (r: Result<Bits16>)
    ensures r.Ok? <==> n < 16
    ensures r.Ok? ==> r.value <= x
  {
    if n >= 16 then Err("panic: attempt to shift right with overflow") else Ok(x >> n)
  }

  /** The two-input gates as the source evaluates them: `LSHIFT` computes `>>` and `RSHIFT`
      computes `<<`. */
  function CombineAsWritten(g: Gate, x: Bits16, y: Bits16): (r: Result<Bits16>)
    requires Binary(g)
    ensures g.LShift? ==> r == ShiftRight(x, y)
    ensures g.RShift? ==> r == ShiftLeft(x, y)
  {
    match g
    case And(_, _) => Ok(x & y)
    case Or(_, _) => Ok(x | y)
    case LShift(_, _) => ShiftRight(x, y)
    case RShift(_, _) => ShiftLeft(x, y)
  }

  /** The two-input gates as their names intend: `LSHIFT` shifts left and `RSHIFT` right. */
  function Combine(g: Gate, x: Bits16, y: Bits16): (r: Result<Bits16>)
    requires Binary(g)
    ensures g.LShift? ==> r == ShiftLeft(x, y)
    ensures g.RShift? ==> r == ShiftRight(x, y)
    ensures g.And? || g.Or? ==> r == CombineAsWritten(g, x, y)
  {
    match g
    case And(_, _) => Ok(x & y)
    case Or(_, _) => Ok(x | y)
    case LShift(_, _) => ShiftLeft(x, y)
    case RShift(_, _) => ShiftRight(x, y)
  }

  /** The intended gates: a left shift that loses no bit is undone by the right shift. */
  lemma ShiftRoundTrip(x: Bits16, n: Bits16)
    requires n < 16 && x >> (16 - n) == 0
    ensures Combine(LShift(Literal(0), Literal(0)), x, n) == Ok(x << n)
    ensures Combine(RShift(Literal(0), Literal(0)), x << n, n) == Ok(x)
  {
  }

  /** As written, the source's own sample lines "x LSHIFT 2 -> f" with x = 123 and
      "y RSHIFT 2 -> g" with y = 456 give 30 and 1824 instead of 492 and 114. */
  lemma AsWrittenSwapsShifts()
    ensures CombineAsWritten(LShift(Variable("x"), Literal(2)), 123, 2) == Ok(30)
    ensures Combine(LShift(Variable("x"), Literal(2)), 123, 2) == Ok(492)
    ensures CombineAsWritten(RShift(Variable("y"), Literal(2)), 456, 2) == Ok(1824)
    ensures Combine(RShift(Variable("y"), Literal(2)), 456, 2) == Ok(114)
  {
  }

  // ---------------------------------------------------------------------------------------------
  // What a wire carries

  /** Which shifts the gates compute: those of the source, or those their names intend. */
  datatype Shifts = AsWritten | Intended

  /** A rank ordering wires so that every wire a ranked gate reads is itself ranked, below the wire
      it drives: the wires the ranked ones depend on form no cycle. Wires outside the rank may. */
  predicate Below(gates: map<string, Gate>, rank: map<string, nat>, id: string, v: Value) {
    v.Variable? && v.name in gates ==> id in rank && v.name in rank && rank[v.name] < rank[id]
  }

  predicate GateBelow(gates: map<string, Gate>, rank: map<string, nat>, id: string, g: Gate) {
    Below(gates, rank, id, g.a) && (Binary(g) ==> Below(gates, rank, id, g.b))
  }

  predicate Ranked(gates: map<string, Gate>, rank: map<string, nat>) {
    forall w :: w in gates && w in rank ==> GateBelow(gates, rank, w, gates[w])
  }

  /** Wire `id`, if it is driven at all, is among the ranked ones. */
  predicate Reaches(gates: map<string, Gate>, rank: map<string, nat>, id: string) {
    id in gates ==> id in rank
  }

  function SignalRank(gates: map<string, Gate>, rank: map<string, nat>, id: string): nat {
    if id in gates && id in rank then rank[id] + 1 else 0
  }

  /** The signal on wire `id`: an error when the wire, or a wire it depends on, has no driving
      gate or a shift overflows; inputs are evaluated left to right. */
  function Signal(gates: map<string, Gate>, rank: map<string, nat>, id: string, shifts: Shifts): Result<Bits16>
    requires Ranked(gates, rank) && Reaches(gates, rank, id)
    decreases SignalRank(gates, rank, id), 2
  {
    if id !in gates then Err("wire " + id + " not found")
    else GateSignal(gates, rank, id, gates[id], shifts)
  }

  function GateSignal(gates: map<string, Gate>, rank: map<string, nat>, id: string, g: Gate, shifts: Shifts): Result<Bits16>
    requires Ranked(gates, rank) && id in gates && id in rank && GateBelow(gates, rank, id, g)
    decreases rank[id] + 1, 1
  {
    match g
    case Assignment(a) => ValueSignal(gates, rank, id, a, shifts)
    case Not(a) =>
      var x :- ValueSignal(gates, rank, id, a, shifts);
      Ok(NotBits(x))
    case _ =>
      var x :- ValueSignal(gates, rank, id, g.a, shifts);
      var y :- ValueSignal(gates, rank, id, g.b, shifts);
      if shifts.AsWritten? then CombineAsWritten(g, x, y) else Combine(g, x, y)
  }

  function ValueSignal(gates: map<string, Gate>, rank: map<string, nat>, id: string, v: Value, shifts: Shifts): Result<Bits16>
    requires Ranked(gates, rank) && id in gates && id in rank && Below(gates, rank, id, v)
    decreases rank[id] + 1, 0
  {
    match v
    case Literal(x) => Ok(x)
    case Variable(n) => Signal(gates, rank, n, shifts)
  }

  /** No gate of the circuit is a shift. */
  predicate ShiftFree(gates: map<string, Gate>) {
    forall w :: w in gates ==> !gates[w].LShift? && !gates[w].RShift?
  }

  /** The swapped shifts are the only difference: on a circuit without shifts the source's signals
      are the intended ones. */
  lemma {:induction false} ShiftFreeAgrees(gates: map<string, Gate>, rank: map<string, nat>, id: string)
    requires Ranked(gates, rank) && Reaches(gates, rank, id) && ShiftFree(gates)
    ensures Signal(gates, rank, id, AsWritten) == Signal(gates, rank, id, Intended)
    decreases SignalRank(gates, rank, id)
  {
    if id in gates {
      var g := gates[id];
      assert GateBelow(gates, rank, id, g);
      if g.a.Variable? {
        ShiftFreeAgrees(gates, rank, g.a.name);
      }
      assert ValueSignal(gates, rank, id, g.a, AsWritten) == ValueSignal(gates, rank, id, g.a, Intended);
      if Binary(g) {
        if g.b.Variable? {
          ShiftFreeAgrees(gates, rank, g.b.name);
        }
        assert ValueSignal(gates, rank, id, g.b, AsWritten) == ValueSignal(gates, rank, id, g.b, Intended);
      }
      assert GateSignal(gates, rank, id, g, AsWritten) == GateSignal(gates, rank, id, g, Intended);
    }
  }

  // ---------------------------------------------------------------------------------------------
  // The circuit state

  /** `CircuitState`: the wires by name, each with its gate and memoised signal. */
  class CircuitState {
    var wires: map<string, WireState>

    constructor()
      ensures wires == map[]
    {
      wires := map[];
    }

    /** The wiring, forgetting the memoised signals. */
    function Gates(): map<string, Gate>
      reads this
    {
      map w | w in wires :: wires[w].gate
    }

    /** The wiring is acyclic by `rank` where it is ranked, and every memoised signal is that of a
        ranked wire, as the source computes it. */
    predicate Valid(rank: map<string, nat>)
      reads this
    {
      Ranked(Gates(), rank) &&
      forall w :: w in wires && wires[w].cached.Some? ==>
        w in rank && Signal(Gates(), rank, w, AsWritten) == Ok(wires[w].cached.value)
    }

    /** `Command::apply`: a wire may be driven by one gate only. */
    method Apply(cmd: Command) returns (r: Result<()>)
      modifies this
      ensures r.Err? <==> cmd.assignment in old(wires)
      ensures r.Err? ==> wires == old(wires) && r.msg == "input already assigned for wire " + cmd.assignment
      ensures r.Ok? ==> wires == old(wires)[cmd.assignment := WireState(cmd.gate, None)]
    {
      if cmd.assignment in wires {
        return Err("input already assigned for wire " + cmd.assignment);
      }
      wires := wires[cmd.assignment := WireState(cmd.gate, None)];
      return Ok(());
    }

    /** `CircuitState::get`: the signal on wire `id`, computing and memoising it on first use. */
    method Get(id: string, ghost rank: map<string, nat>) returns (r: Result<Bits16>)
      requires Valid(rank) && Reaches(Gates(), rank, id)
      modifies this
      ensures Valid(rank) && Gates() == old(Gates())
      ensures r == Signal(Gates(), rank, id, AsWritten)
      ensures r.Ok? ==> id in wires && wires[id].cached == Some(r.value)
      ensures old(id in wires && wires[id].cached.Some?) ==> wires == old(wires)
      decreases SignalRank(Gates(), rank, id), 3
    {
      if id in wires {
        var wire := wires[id];
        if wire.cached.Some? {
          return Ok(wire.cached.value);
        }
        assert Gates()[id] == wire.gate;
        var res := RunGate(wire.gate, id, rank);
        if res.Err? {
          return res;
        }
        ghost var before := Gates();
        assert id in before && before[id] == wire.gate;
        wires := wires[id := WireState(wire.gate, Some(res.value))];
        assert Gates() == before;
        return Ok(res.value);
      } else {
        return Err("wire " + id + " not found");
      }
    }

    /** `Gate::run` for the gate driving wire `id`. */
    method RunGate(g: Gate, ghost id: string, ghost rank: map<string, nat>) returns (r: Result<Bits16>)
      requires Valid(rank) && id in Gates() && id in rank && GateBelow(Gates(), rank, id, g)
      modifies this
      ensures Valid(rank) && Gates() == old(Gates())
      ensures r == GateSignal(Gates(), rank, id, g, AsWritten)
      decreases rank[id] + 1, 2
    {
      match g
      case Assignment(a) =>
        r := GetValue(a, id, rank);
      case Not(a) =>
        var x := GetValue(a, id, rank);
        if x.Err? {
          return x;
        }
        r := Ok(NotBits(x.value));
      case And(a, b) =>
        r := RunBinary(g, id, rank);
      case Or(a, b) =>
        r := RunBinary(g, id, rank);
      case LShift(a, b) =>
        r := RunBinary(g, id, rank);
      case RShift(a, b) =>
        r := RunBinary(g, id, rank);
    }

    method RunBinary(g: Gate, ghost id: string, ghost rank: map<string, nat>) returns (r: Result<Bits16>)
      requires Binary(g)
      requires Valid(rank) && id in Gates() && id in rank && GateBelow(Gates(), rank, id, g)
      modifies this
      ensures Valid(rank) && Gates() == old(Gates())
      ensures r == GateSignal(Gates(), rank, id, g, AsWritten)
      decreases rank[id] + 1, 1
    {
      var x := GetValue(g.a, id, rank);
      if x.Err? {
        return x;
      }
      var y := GetValue(g.b, id, rank);
      if y.Err? {
        return y;
      }
      r := CombineAsWritten(g, x.value, y.value);
    }

    /** `Value::get`. */
    method GetValue(v: Value, ghost id: string, ghost rank: map<string, nat>) returns (r: Result<Bits16>)
      requires Valid(rank) && id in Gates() && id in rank && Below(Gates(), rank, id, v)
      modifies this
      ensures Valid(rank) && Gates() == old(Gates())
      ensures r == ValueSignal(Gates(), rank, id, v, AsWritten)
      decreases rank[id] + 1, 0
    {
      match v
      case Literal(x) =>
        r := Ok(x);
      case Variable(n) =>
        r := Get(n, rank);
    }
  }

  // ---------------------------------------------------------------------------------------------
  // Parsing

  /** `Value::parse`: a `u16` literal (an optional '+', digits, at most 65535), otherwise a wire
      name; a space is an error. */
  function ParseValue(s: string): (r: Result<Value>)
    ensures r.Err? <==> ' ' in s
    ensures r.Ok? && r.value.Literal? ==> ParseUnsigned(s, U16_LIMIT).Some? && r.value.lit == ParseUnsigned(s, U16_LIMIT).value as bv16
    ensures r.Ok? && r.value.Variable? ==> ParseUnsigned(s, U16_LIMIT).None? && r.value.name == s
  {
    if ' ' in s then Err("invalid value \"" + s + "\"")
    else match ParseUnsigned(s, U16_LIMIT)
      case Some(v) => Ok(Literal(v as bv16))
      case None => Ok(Variable(s))
  }

  predicate IsOperator(w: string) { w == "AND" || w == "OR" || w == "LSHIFT" || w == "RSHIFT" }

  /** `Gate::parse`: one word is an assignment, "NOT" and a word a complement, and three words a
      two-input gate named by the middle word; anything else is an error. */
  function ParseGate(s: string): (r: Result<Gate>)
    ensures var ws := Words(s);
      r.Ok? <==> |ws| == 1 || (|ws| == 2 && ws[0] == "NOT") || (|ws| == 3 && IsOperator(ws[1]))
    ensures r.Ok? && |Words(s)| == 1 ==> r.value.Assignment?
    ensures r.Ok? && |Words(s)| == 2 ==> r.value.Not?
    ensures r.Ok? && |Words(s)| == 3 ==> Binary(r.value)
  {
    var ws := Words(s);
    WordsHaveNoSpace(ws);
    // A word holds no space, so `Value::parse` cannot fail on one.
    if |ws| == 1 then
      Ok(Assignment(ParseValue(ws[0]).value))
    else if |ws| == 2 && ws[0] == "NOT" then
      Ok(Not(ParseValue(ws[1]).value))
    else if |ws| == 3 then
      var a := ParseValue(ws[0]).value;
      var b := ParseValue(ws[2]).value;
      if ws[1] == "AND" then Ok(And(a, b))
      else if ws[1] == "OR" then Ok(Or(a, b))
      else if ws[1] == "LSHIFT" then Ok(LShift(a, b))
      else if ws[1] == "RSHIFT" then Ok(RShift(a, b))
      else Err("Invalid gate " + ws[1])
    else Err("Invalid gate: \"" + s + "\"")
  }

  lemma WordsHaveNoSpace(ws: seq<string>)
    requires forall i :: 0 <= i < |ws| ==> forall k :: 0 <= k < |ws[i]| ==> !IsAsciiWhitespace(ws[i][k])
    ensures forall i :: 0 <= i < |ws| ==> ' ' !in ws[i]
  {
    forall i | 0 <= i < |ws|
      ensures ' ' !in ws[i]
    {
      assert forall k :: 0 <= k < |ws[i]| ==> ws[i][k] != ' ';
    }
  }

  /** `Command::parse`: "<gate> -> <wire>" split at the first " -> ". */
  function ParseCommand(s: string): (r: Result<Command>)
    ensures r.Ok? <==> SplitOnce(s, " -> ").Some? && ParseGate(SplitOnce(s, " -> ").value.0).Ok?
    ensures r.Ok? ==> var (g, w) := SplitOnce(s, " -> ").value;
      r.value == Command(ParseGate(g).value, w)
  {
    match SplitOnce(s, " -> ")
    case None => Err("Missing -> in command \"" + s + "\"")
    case Some((g, w)) =>
      var gate :- ParseGate(g);
      Ok(Command(gate, w))
  }

  /** The lines of `day07_1`, each a command. */
  function ParseCommands(lines: seq<string>): (r: Result<seq<Command>>)
    ensures r.Ok? <==> forall i :: 0 <= i < |lines| ==> ParseCommand(lines[i]).Ok?
    ensures r.Ok? ==> |r.value| == |lines| && forall i :: 0 <= i < |lines| ==> ParseCommand(lines[i]) == Ok(r.value[i])
  {
    CollectAll(lines, ParseCommand)
  }

  // ---------------------------------------------------------------------------------------------
  // Printing gates and the parse round trip

  /** A wire name the parser reads back as a name: a word that is not a `u16` literal and
      contains no '-'. */
  predicate IsWireName(n: string) {
    n != [] && (forall k :: 0 <= k < |n| ==> !IsAsciiWhitespace(n[k]) && n[k] != '-') &&
    ParseUnsigned(n, U16_LIMIT).None?
  }

  predicate PrintableValue(v: Value) { v.Variable? ==> IsWireName(v.name) }

  predicate Printable(g: Gate) { PrintableValue(g.a) && (Binary(g) ==> PrintableValue(g.b)) }

  function ValueText(v: Value): string {
    match v
    case Literal(x) => Decimal(x as int)
    case Variable(n) => n
  }

  function OperatorText(g: Gate): string
    requires Binary(g)
  {
    match g
    case And(_, _) => "AND"
    case Or(_, _) => "OR"
    case LShift(_, _) => "LSHIFT"
    case RShift(_, _) => "RSHIFT"
  }

  function GateText(g: Gate): string {
    match g
    case Assignment(a) => ValueText(a)
    case Not(a) => "NOT " + ValueText(a)
    case _ => ValueText(g.a) + " " + OperatorText(g) + " " + ValueText(g.b)
  }

  lemma ValueTextIsWord(v: Value)
    requires PrintableValue(v)
    ensures var t := ValueText(v);
      t != [] && forall k :: 0 <= k < |t| ==> !IsAsciiWhitespace(t[k]) && t[k] != '-'
  {
    if v.Literal? {
      var t := Decimal(v.lit as int);
      assert forall k :: 0 <= k < |t| ==> IsDigit(t[k]);
    }
  }

  lemma ValueRoundTrip(v: Value)
    requires PrintableValue(v)
    ensures ParseValue(ValueText(v)) == Ok(v)
  {
    if v.Literal? {
      LiteralRoundTrip(v.lit);
    } else {
      ValueTextIsWord(v);
      assert forall k :: 0 <= k < |v.name| ==> v.name[k] != ' ';
    }
  }

  /** A literal prints as its decimal digits, which parse back to the same `u16`. */
  lemma LiteralRoundTrip(x: bv16)
    ensures ParseValue(Decimal(x as int)) == Ok(Literal(x))
  {
    var t := Decimal(x as int);
    assert forall k :: 0 <= k < |t| ==> IsDigit(t[k]);
    assert ' ' !in t;
    DecimalRoundTrip(x as int, U16_LIMIT);
  }

  /** The words of a printed gate. */
  lemma GateWords(g: Gate)
    requires Printable(g)
    ensures g.Assignment? ==> Words(GateText(g)) == [ValueText(g.a)]
    ensures g.Not? ==> Words(GateText(g)) == ["NOT", ValueText(g.a)]
    ensures Binary(g) ==> Words(GateText(g)) == [ValueText(g.a), OperatorText(g), ValueText(g.b)]
  {
    ValueTextIsWord(g.a);
    var a := ValueText(g.a);
    if g.Assignment? {
      WordsOfWord(a);
    } else if g.Not? {
      var not := "NOT";
      assert forall k :: 0 <= k < |not| ==> !IsAsciiWhitespace(not[k]);
      WordsTwo(not, a);
      assert GateText(g) == not + " " + a;
    } else {
      ValueTextIsWord(g.b);
      var op := OperatorText(g);
      assert op != [] && forall k :: 0 <= k < |op| ==> !IsAsciiWhitespace(op[k]);
      WordsThree(a, op, ValueText(g.b));
    }
  }

  /** Parsing reads back every printable gate. */
  lemma GateRoundTrip(g: Gate)
    requires Printable(g)
    ensures ParseGate(GateText(g)) == Ok(g)
  {
    GateWords(g);
    ValueRoundTrip(g.a);
    if Binary(g) {
      ValueRoundTrip(g.b);
    }
  }

  function CommandText(c: Command): string {
    GateText(c.gate) + " -> " + c.assignment
  }

  lemma GateTextHasNoDash(g: Gate)
    requires Printable(g)
    ensures '-' !in GateText(g)
  {
    ValueTextIsWord(g.a);
    var a := ValueText(g.a);
    assert '-' !in a by {
      assert forall k :: 0 <= k < |a| ==> a[k] != '-';
    }
    if Binary(g) {
      ValueTextIsWord(g.b);
      var b := ValueText(g.b);
      assert '-' !in b by {
        assert forall k :: 0 <= k < |b| ==> b[k] != '-';
      }
      var op := OperatorText(g);
      assert '-' !in op;
      assert GateText(g) == a + " " + op + " " + b;
    }
  }

  /** Parsing reads back every command over a printable gate. */
  lemma CommandRoundTrip(c: Command)
    requires Printable(c.gate)
    ensures ParseCommand(CommandText(c)) == Ok(c)
  {
    GateTextHasNoDash(c.gate);
    FindAtSecond(GateText(c.gate), " -> ", c.assignment);
    var s := CommandText(c);
    var g := GateText(c.gate);
    assert s[..|g|] == g && s[|g| + 4..] == c.assignment;
    GateRoundTrip(c.gate);
  }

  // ---------------------------------------------------------------------------------------------
  // The whole circuit

  /** The wiring that applying the commands in order builds: an error at the first wire
      assigned twice. */
  function Wiring(cmds: seq<Command>): (r: Result<map<string, Gate>>)
    ensures r.Ok? ==> r.value.Keys == set i | 0 <= i < |cmds| :: cmds[i].assignment
  {
    if cmds == [] then Ok(map[])
    else
      var m :- Wiring(cmds[..|cmds| - 1]);
      var c := cmds[|cmds| - 1];
      if c.assignment in m then Err("input already assigned for wire " + c.assignment)
      else
        assert forall i :: 0 <= i < |cmds| - 1 ==> cmds[..|cmds| - 1][i] == cmds[i];
        Ok(m[c.assignment := c.gate])
  }

  predicate DistinctTargets(cmds: seq<Command>) {
    forall i, j :: 0 <= i < j < |cmds| ==> cmds[i].assignment != cmds[j].assignment
  }

  /** The wiring succeeds exactly when no wire is assigned twice. */
  lemma {:induction false} WiringOk(cmds: seq<Command>)
    ensures Wiring(cmds).Ok? <==> DistinctTargets(cmds)
  {
    if cmds != [] {
      WiringOk(cmds[..|cmds| - 1]);
      WiringSnoc(cmds);
      DistinctSnoc(cmds);
    }
  }

  /** The last command wires up exactly when the others did and its wire is new. */
  lemma WiringSnoc(cmds: seq<Command>)
    requires cmds != []
    ensures var init, c := cmds[..|cmds| - 1], cmds[|cmds| - 1];
      Wiring(cmds).Ok? <==> Wiring(init).Ok? && forall i :: 0 <= i < |init| ==> init[i].assignment != c.assignment
  {
    var init, c := cmds[..|cmds| - 1], cmds[|cmds| - 1];
    if Wiring(init).Ok? && c.assignment in Wiring(init).value {
      var i :| 0 <= i < |init| && init[i].assignment == c.assignment;
    }
  }

  lemma DistinctSnoc(cmds: seq<Command>)
    requires cmds != []
    ensures var init, c := cmds[..|cmds| - 1], cmds[|cmds| - 1];
      DistinctTargets(cmds) <==> DistinctTargets(init) && forall i :: 0 <= i < |init| ==> init[i].assignment != c.assignment
  {
    var init, c := cmds[..|cmds| - 1], cmds[|cmds| - 1];
    assert forall i :: 0 <= i < |init| ==> cmds[i] == init[i];
    assert cmds[|init|] == c;
  }

  /** A successful wiring drives each wire by the gate of its own command. */
  lemma {:induction false} WiringGates(cmds: seq<Command>)
    requires Wiring(cmds).Ok?
    ensures forall i :: 0 <= i < |cmds| ==> Wiring(cmds).value[cmds[i].assignment] == cmds[i].gate
  {
    if cmds != [] {
      var init, c := cmds[..|cmds| - 1], cmds[|cmds| - 1];
      WiringGates(init);
      WiringSnocValue(cmds);
      var m := Wiring(init).value;
      forall i | 0 <= i < |cmds|
        ensures Wiring(cmds).value[cmds[i].assignment] == cmds[i].gate
      {
        if i < |init| {
          assert cmds[i] == init[i] && init[i].assignment in m;
        }
      }
    }
  }

  /** A successful wiring adds the last command's wire, new, to the wiring of the others. */
  lemma WiringSnocValue(cmds: seq<Command>)
    requires cmds != [] && Wiring(cmds).Ok?
    ensures var init, c := cmds[..|cmds| - 1], cmds[|cmds| - 1];
      Wiring(init).Ok? && c.assignment !in Wiring(init).value &&
      Wiring(cmds).value == Wiring(init).value[c.assignment := c.gate]
  {
  }

  /** Once two commands clash, later commands do not change the outcome. */
  lemma {:induction false} WiringSticks(cmds: seq<Command>, i: nat)
    requires i <= |cmds| && Wiring(cmds[..i]).Err?
    ensures Wiring(cmds) == Wiring(cmds[..i])
    decreases |cmds|
  {
    if i < |cmds| {
      var init := cmds[..|cmds| - 1];
      assert init[..i] == cmds[..i];
      WiringSticks(init, i);
    } else {
      assert cmds[..i] == cmds;
    }
  }

  /** The wires that wire "a" depends on are ranked by `rank`, so they form no cycle. */
  predicate RankedFromA(gates: map<string, Gate>, rank: map<string, nat>) {
    Ranked(gates, rank) && Reaches(gates, rank, "a")
  }

  /** On a circuit without shift gates, the source's answer is the intended one. */
  lemma ShiftFreeDay07(input: string, rank: map<string, nat>)
    requires AcyclicBy(input, rank)
    requires var p := ParseCommands(Lines(input));
      p.Ok? && Wiring(p.value).Ok? ==> ShiftFree(Wiring(p.value).value)
    ensures Day07(input, rank) == Day07Intended(input, rank)
  {
    var p := ParseCommands(Lines(input));
    if p.Ok? && Wiring(p.value).Ok? {
      ShiftFreeAgrees(Wiring(p.value).value, rank, "a");
    }
  }

  /** Every input that parses and wires up has a wiring whose wires reachable from "a" are ranked
      by `rank`. */
  predicate AcyclicBy(input: string, rank: map<string, nat>) {
    var p := ParseCommands(Lines(input));
    p.Ok? && Wiring(p.value).Ok? ==> RankedFromA(Wiring(p.value).value, rank)
  }

  /** The signal on wire "a" of the circuit that the commands build. */
  function CircuitSignal(cmds: seq<Command>, rank: map<string, nat>, shifts: Shifts): Result<Bits16>
    requires Wiring(cmds).Ok? ==> RankedFromA(Wiring(cmds).value, rank)
  {
    var gates :- Wiring(cmds);
    Signal(gates, rank, "a", shifts)
  }

  /** What `day07_1` computes: the signal on wire "a", with the source's shifts. */
  function Day07(input: string, rank: map<string, nat>): (r: Result<nat>)
    requires AcyclicBy(input, rank)
    ensures ParseCommands(Lines(input)).Err? ==> r == Err(ParseCommands(Lines(input)).msg)
    ensures r.Ok? ==> r.value < 0x1_0000
  {
    var cmds :- ParseCommands(Lines(input));
    var v :- CircuitSignal(cmds, rank, AsWritten);
    Ok(v as int)
  }

  /** `day07_1` with the shifts their names intend. */
  function Day07Intended(input: string, rank: map<string, nat>): Result<nat>
    requires AcyclicBy(input, rank)
  {
    var cmds :- ParseCommands(Lines(input));
    var v :- CircuitSignal(cmds, rank, Intended);
    Ok(v as int)
  }

  /** The loop of `day07_1` applying each command to a fresh circuit. */
  method ApplyAll(cmds: seq<Command>) returns (state: CircuitState, r: Result<()>)
    ensures fresh(state)
    ensures r.Ok? <==> Wiring(cmds).Ok?
    ensures r.Err? ==> r.msg == Wiring(cmds).msg
    ensures r.Ok? ==> state.Gates() == Wiring(cmds).value && forall w :: w in state.wires ==> state.wires[w].cached.None?
  {
    state := new CircuitState();
    for i := 0 to |cmds|
      invariant Wiring(cmds[..i]).Ok?
      invariant state.Gates() == Wiring(cmds[..i]).value
      invariant forall w :: w in state.wires ==> state.wires[w].cached.None?
    {
      var c := cmds[i];
      assert cmds[..i + 1][..i] == cmds[..i] && cmds[..i + 1][i] == c;
      ghost var before := state.Gates();
      ghost var oldWires := state.wires;
      var applied := state.Apply(c);
      if applied.Err? {
        assert c.assignment in oldWires;
        assert c.assignment in before;
        assert Wiring(cmds[..i + 1]) == Err(applied.msg);
        WiringSticks(cmds, i + 1);
        return state, applied;
      }
      assert state.Gates() == before[c.assignment := c.gate];
    }
    assert cmds[..|cmds|] == cmds;
    r := Ok(());
  }

  /** A circuit with nothing memoised is valid for any rank that orders its wiring. */
  lemma FreshStateValid(state: CircuitState, rank: map<string, nat>)
    requires Ranked(state.Gates(), rank)
    requires forall w :: w in state.wires ==> state.wires[w].cached.None?
    ensures state.Valid(rank)
  {
  }

  /** The commands applied to an empty circuit, then wire "a" read. */
  method RunCircuit(cmds: seq<Command>, ghost rank: map<string, nat>) returns (r: Result<Bits16>)
    requires Wiring(cmds).Ok? ==> RankedFromA(Wiring(cmds).value, rank)
    ensures r == CircuitSignal(cmds, rank, AsWritten)
  {
    var state, applied := ApplyAll(cmds);
    if applied.Err? {
      return Err(applied.msg);
    }
    FreshStateValid(state, rank);
    r := state.Get("a", rank);
  }

  /** `day07_1`. The model asks for a rank witnessing that the wires "a" depends on form no cycle.
      On a wiring with such a cycle the source either recurses until its stack overflows or stops
      with an ordinary error met before the cycle (a missing wire, an overlong shift); neither
      is modelled. */
  method Part1(input: string, ghost rank: map<string, nat>) returns (r: Result<nat>)
    requires AcyclicBy(input, rank)
    ensures r == Day07(input, rank)
    ensures r.Ok? ==> r.value < U16_LIMIT
  {
    var cmds := ParseCommands(Lines(input));
    if cmds.Err? {
      return Err(cmds.msg);
    }
    var a := RunCircuit(cmds.value, rank);
    if a.Err? {
      return Err(a.msg);
    }
    return Ok(a.value as int);
  }

  /** A two-wire circuit made of the sample's third and ninth lines, "456 -> y" and "NOT y -> a",
      the only two lines that wire "a" depends on: it carries 65079. */
  lemma Fixture()
    ensures var gates := map["y" := Assignment(Literal(456)), "a" := Not(Variable("y"))];
      var rank := map["y" := 0, "a" := 1];
      RankedFromA(gates, rank) && Signal(gates, rank, "a", AsWritten) == Ok(65079)
  {
  }

  /** Wire "a" is "x LSHIFT 2" with x = 123: the source gives 30, the intended shift 492. */
  lemma ShiftFixture()
    ensures var gates := map["x" := Assignment(Literal(123)), "a" := LShift(Variable("x"), Literal(2))];
      var rank := map["x" := 0, "a" := 1];
      RankedFromA(gates, rank) && Signal(gates, rank, "a", AsWritten) == Ok(30)
      && Signal(gates, rank, "a", Intended) == Ok(492)
  {
    AsWrittenSwapsShifts();
  }

  /** A cycle that wire "a" does not depend on needs no rank: "1 -> a", "p -> q", "q -> p". */
  lemma UnreachedCycle()
    ensures var gates := map["a" := Assignment(Literal(1)), "q" := Assignment(Variable("p")), "p" := Assignment(Variable("q"))];
      var rank := map["a" := 0];
      RankedFromA(gates, rank) && Signal(gates, rank, "a", AsWritten) == Ok(1)
  {
  }
}
