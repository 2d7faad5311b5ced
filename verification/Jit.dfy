/** Jumps of the just-in-time assembler: labels bound before or after the jumps to them, and the 32-bit
    fields patched in place. */
module Jit {
  import opened ArcTypes

  const WORD: int := 0x1_0000_0000
  const HALF: int := 0x8000_0000

  // ---- 32-bit fields ------------------------------------------------------------------------------------

  /** The four bytes of a word, lowest first. */
  function LittleEndian(v: nat): (r: seq<byte>)
    requires v < WORD
    ensures |r| == 4
  {
    [v % 256, v / 256 % 256, v / 65536 % 256, v / 16777216 % 256]
  }

  /** The signed word stored at an offset. */
  function FieldAt(code: seq<byte>, offset: nat): int
    requires offset + 4 <= |code|
  {
    var v := code[offset] as int + 256 * code[offset + 1] as int + 65536 * code[offset + 2] as int
             + 16777216 * code[offset + 3] as int;
    if v < HALF then v else v - WORD
  }

  function Put(code: seq<byte>, offset: nat, bytes: seq<byte>): (r: seq<byte>)
    requires offset + |bytes| <= |code|
    ensures |r| == |code|
    ensures forall i: nat | i < |code| :: r[i] == if offset <= i < offset + |bytes| then bytes[i - offset] else code[i]
  {
    code[..offset] + bytes + code[offset + |bytes|..]
  }

  /** The displacement from the end of the field to the target, as a word. */
  function Displacement(offset: nat, target: nat): (v: nat)
    ensures v < WORD
  {
    (target - (offset + 4)) % WORD
  }

  function Patched(code: seq<byte>, offset: nat, target: nat): (r: seq<byte>)
    requires offset + 4 <= |code|
    ensures |r| == |code|
  {
    Put(code, offset, LittleEndian(Displacement(offset, target)))
  }

  /** The four bytes at `offset` are the displacement to `target`, modulo 2^32, lowest first. */
  predicate HoldsDisplacement(code: seq<byte>, offset: nat, target: nat) {
    offset + 4 <= |code| &&
    var rel32 := (target - (offset + 4)) % 0x1_0000_0000;
    && code[offset] == rel32 % 0x100
    && code[offset + 1] == rel32 / 0x100 % 0x100
    && code[offset + 2] == rel32 / 0x1_0000 % 0x100
    && code[offset + 3] == rel32 / 0x100_0000 % 0x100
  }

  lemma PatchHolds(code: seq<byte>, offset: nat, target: nat)
    requires offset + 4 <= |code|
    ensures HoldsDisplacement(Patched(code, offset, target), offset, target)
    ensures forall i: nat | i < |code| && !(offset <= i < offset + 4) :: Patched(code, offset, target)[i] == code[i]
  {
  }

  lemma PatchReads(code: seq<byte>, offset: nat, target: nat)
    requires offset + 4 <= |code| < HALF && target <= |code|
    ensures FieldAt(Patched(code, offset, target), offset) == target - (offset + 4)
    ensures forall i: nat | i < |code| && !(offset <= i < offset + 4) :: Patched(code, offset, target)[i] == code[i]
  {
    var v := Displacement(offset, target);
    assert v == if target >= offset + 4 then target - (offset + 4) else target - (offset + 4) + WORD;
    WordBytes(v);
  }

  lemma WordBytes(v: nat)
    requires v < WORD
    ensures v == v % 256 + 256 * (v / 256 % 256) + 65536 * (v / 65536 % 256) + 16777216 * (v / 16777216 % 256)
  {
    assert v / 65536 == v / 256 / 256 && v / 16777216 == v / 65536 / 256;
  }

  // ---- Labels and their steps -----------------------------------------------------------------------------

  datatype LabelState = LabelState(bound: bool, position: nat, pending: seq<nat>)

  const FRESH := LabelState(false, 0, [])

  predicate Inside(code: seq<byte>, offsets: seq<nat>) {
    forall k: nat | k < |offsets| :: offsets[k] + 4 <= |code|
  }

  function PatchAll(code: seq<byte>, offsets: seq<nat>, target: nat): (r: seq<byte>)
    requires Inside(code, offsets)
    ensures |r| == |code|
  {
    if offsets == [] then code
    else Patched(PatchAll(code, offsets[..|offsets| - 1], target), offsets[|offsets| - 1], target)
  }

  /** The bytes of a jump before its field. */
  function Opcode(prefix: Option<byte>, opcode: byte): seq<byte> {
    (if prefix.Some? then [prefix.value] else []) + [opcode]
  }

  function JumpCode(code: seq<byte>, prefix: Option<byte>, opcode: byte, l: LabelState): (r: seq<byte>) {
    var placed := code + Opcode(prefix, opcode) + [0, 0, 0, 0];
    if l.bound then Patched(placed, |placed| - 4, l.position) else placed
  }

  function JumpLabel(code: seq<byte>, prefix: Option<byte>, opcode: byte, l: LabelState): LabelState {
    if l.bound then l else l.(pending := l.pending + [|code| + |Opcode(prefix, opcode)|])
  }

  /** The bytes a jump emits, and what becomes of its label. */
  predicate JumpEmitted(before: seq<byte>, code: seq<byte>, prefix: Option<byte>, opcode: byte, l: LabelState,
                        m: LabelState)
  {
    var n := |before|;
    var field := n + if prefix.Some? then 2 else 1;
    && |code| == field + 4 && code[..n] == before
    && (prefix.Some? ==> code[n] == prefix.value) && code[field - 1] == opcode
    && (if l.bound then HoldsDisplacement(code, field, l.position) && m == l
        else code[field..] == [0, 0, 0, 0] && m == LabelState(false, l.position, l.pending + [field]))
  }

  lemma JumpBytes(code: seq<byte>, prefix: Option<byte>, opcode: byte, l: LabelState)
    ensures JumpEmitted(code, JumpCode(code, prefix, opcode, l), prefix, opcode, l, JumpLabel(code, prefix, opcode, l))
  {
    var placed := code + Opcode(prefix, opcode) + [0, 0, 0, 0];
    if l.bound {
      PatchHolds(placed, |placed| - 4, l.position);
    }
  }

  function BindCode(code: seq<byte>, l: LabelState): seq<byte>
    requires Inside(code, l.pending)
  {
    PatchAll(code, l.pending, |code|)
  }

  function BindLabel(code: seq<byte>, l: LabelState): LabelState {
    LabelState(true, |code|, [])
  }

  // ---- The classes ----------------------------------------------------------------------------------------

  class Label {
    var bound: bool
    var position: nat
    var pending: seq<nat>

    constructor ()
      ensures State() == FRESH
    {
      bound, position, pending := false, 0, [];
    }

    ghost function State(): LabelState
      reads this
    {
      LabelState(bound, position, pending)
    }
  }

  class JitAssembler {
    var code: seq<byte>

    constructor ()
      ensures code == []
    {
      code := [];
    }

    method Emit(b: byte)
      modifies this
      ensures code == old(code) + [b]
    {
      code := code + [b];
    }

    method EmitU32(value: nat)
      requires value < WORD
      modifies this
      ensures code == old(code) + LittleEndian(value)
    {
      Emit(value % 256);
      Emit(value / 256 % 256);
      Emit(value / 65536 % 256);
      Emit(value / 16777216 % 256);
    }

    method PatchRel32(offset: nat, target: nat)
      requires offset + 4 <= |code|
      modifies this
      ensures code == Patched(old(code), offset, target)
      ensures |code| == |old(code)| && HoldsDisplacement(code, offset, target)
      ensures forall i: nat | i < |code| && !(offset <= i < offset + 4) :: code[i] == old(code)[i]
    {
      PatchHolds(code, offset, target);
      var rel32 := Displacement(offset, target);
      code := code[offset := rel32 % 256];
      code := code[offset + 1 := rel32 / 256 % 256];
      code := code[offset + 2 := rel32 / 65536 % 256];
      code := code[offset + 3 := rel32 / 16777216 % 256];
    }

    /** The prefix, if there is one, the opcode, and the four bytes of the field; a field to a label not
        yet bound is zero, and pending. */
    method EmitJump(opcode: byte, prefix: Option<byte>, target: Label)
      modifies this, target
      ensures JumpEmitted(old(code), code, prefix, opcode, old(target.State()), target.State())
      ensures code == JumpCode(old(code), prefix, opcode, old(target.State()))
      ensures target.State() == JumpLabel(old(code), prefix, opcode, old(target.State()))
    {
      if prefix.Some? {
        Emit(prefix.value);
      }
      Emit(opcode);
      assert code == old(code) + Opcode(prefix, opcode);
      var offset := |code|;
      EmitU32(0);
      if target.bound {
        PatchRel32(offset, target.position);
      } else {
        target.pending := target.pending + [offset];
      }
      JumpBytes(old(code), prefix, opcode, old(target.State()));
    }

    method Jmp(target: Label)
      modifies this, target
      ensures |code| == |old(code)| + 5 && code[..|old(code)|] == old(code) && code[|old(code)|] == 0xE9
      ensures JumpEmitted(old(code), code, None, 0xE9, old(target.State()), target.State())
      ensures code == JumpCode(old(code), None, 0xE9, old(target.State()))
      ensures target.State() == JumpLabel(old(code), None, 0xE9, old(target.State()))
    {
      EmitJump(0xE9, None, target);
    }

    /** The condition is one of the sixteen codes of the instruction set. */
    method Jcc(condition: nat, target: Label)
      requires condition < 16
      modifies this, target
      ensures |code| == |old(code)| + 6 && code[..|old(code)|] == old(code)
      ensures code[|old(code)|] == 0x0F && code[|old(code)| + 1] == 0x80 + condition
      ensures JumpEmitted(old(code), code, Some(0x0F), 0x80 + condition, old(target.State()), target.State())
      ensures code == JumpCode(old(code), Some(0x0F), 0x80 + condition, old(target.State()))
      ensures target.State() == JumpLabel(old(code), Some(0x0F), 0x80 + condition, old(target.State()))
    {
      EmitJump(0x80 + condition, Some(0x0F), target);
    }

    method Bind(l: Label)
      requires Inside(code, l.pending)
      modifies this, l
      ensures code == BindCode(old(code), old(l.State()))
      ensures l.State() == BindLabel(old(code), old(l.State()))
    {
      l.bound := true;
      l.position := |code|;
      var k := 0;
      while k < |l.pending|
        invariant k <= |l.pending| && l.State() == LabelState(true, |old(code)|, old(l.pending))
        invariant |code| == |old(code)| && Inside(old(code), l.pending[..k])
        invariant code == PatchAll(old(code), l.pending[..k], l.position)
      {
        assert l.pending[..k + 1][..k] == l.pending[..k];
        PatchRel32(l.pending[k], l.position);
        k := k + 1;
      }
      assert l.pending[..k] == l.pending;
      l.pending := [];
    }
  }

  // ---- Runs -------------------------------------------------------------------------------------------------

  datatype Op =
    | Emits(bytes: seq<byte>)
    | Jumps(prefix: Option<byte>, opcode: byte, to: nat)
    | Binds(what: nat)

  /** The code so far and every label used. */
  datatype Assembly = Assembly(code: seq<byte>, labels: map<nat, LabelState>)

  function LabelOf(a: Assembly, l: nat): LabelState {
    if l in a.labels then a.labels[l] else FRESH
  }

  predicate Sound(a: Assembly) {
    forall l | l in a.labels :: Inside(a.code, a.labels[l].pending)
  }

  function Step(a: Assembly, op: Op): (r: Assembly)
    requires Sound(a)
    ensures Sound(r) && |a.code| <= |r.code|
  {
    match op
    case Emits(bytes) =>
      Assembly(a.code + bytes, a.labels)
    case Jumps(prefix, opcode, to) =>
      var l := LabelOf(a, to);
      Assembly(JumpCode(a.code, prefix, opcode, l), a.labels[to := JumpLabel(a.code, prefix, opcode, l)])
    case Binds(what) =>
      var l := LabelOf(a, what);
      Assembly(BindCode(a.code, l), a.labels[what := BindLabel(a.code, l)])
  }

  function Run(ops: seq<Op>): (a: Assembly)
    ensures Sound(a)
  {
    if ops == [] then Assembly([], map[]) else Step(Run(ops[..|ops| - 1]), ops[|ops| - 1])
  }

  /** What is emitted, every jump field still zero. */
  function Emitted(ops: seq<Op>): seq<byte> {
    if ops == [] then []
    else
      var before := Emitted(ops[..|ops| - 1]);
      match ops[|ops| - 1]
      case Emits(bytes) => before + bytes
      case Jumps(Some(prefix), opcode, _) => before + [prefix, opcode, 0, 0, 0, 0]
      case Jumps(None, opcode, _) => before + [opcode, 0, 0, 0, 0]
      case Binds(_) => before
  }

  datatype Field = Field(offset: nat, to: nat)

  /** The jump fields, in the order emitted. */
  function Fields(ops: seq<Op>): seq<Field> {
    if ops == [] then []
    else
      var before := Fields(ops[..|ops| - 1]);
      match ops[|ops| - 1]
      case Jumps(Some(_), _, to) => before + [Field(|Emitted(ops[..|ops| - 1])| + 2, to)]
      case Jumps(None, _, to) => before + [Field(|Emitted(ops[..|ops| - 1])| + 1, to)]
      case _ => before
  }

  /** Where a label was bound. */
  function BoundAt(ops: seq<Op>, l: nat): Option<nat> {
    if ops == [] then None
    else if ops[|ops| - 1] == Binds(l) then Some(|Emitted(ops[..|ops| - 1])|)
    else BoundAt(ops[..|ops| - 1], l)
  }

  /** No label is bound a second time. */
  predicate BoundOnce(ops: seq<Op>) {
    forall i: nat | i < |ops| && ops[i].Binds? :: BoundAt(ops[..i], ops[i].what).None?
  }

  /** The fields of the jumps to a label. */
  function FieldsTo(fields: seq<Field>, l: nat): seq<nat> {
    if fields == [] then []
    else
      var last := fields[|fields| - 1];
      FieldsTo(fields[..|fields| - 1], l) + if last.to == l then [last.offset] else []
  }

  predicate InField(fields: seq<Field>, i: nat) {
    exists k: nat :: k < |fields| && fields[k].offset <= i < fields[k].offset + 4
  }

  /** Fields lie inside the code, one after the other. */
  predicate Laid(fields: seq<Field>, size: nat) {
    && (forall k: nat | k < |fields| :: fields[k].offset + 4 <= size)
    && (forall j: nat, k: nat | j < k < |fields| :: fields[j].offset + 4 <= fields[k].offset)
  }

  /** Bytes outside the fields are as emitted. */
  predicate OthersKept(code: seq<byte>, emitted: seq<byte>, fields: seq<Field>) {
    && |code| == |emitted|
    && forall i: nat | i < |code| && !InField(fields, i) :: code[i] == emitted[i]
  }

  /** Every jump to a bound label leads there; the fields of the others are still zero. */
  predicate Resolved(code: seq<byte>, fields: seq<Field>, ops: seq<Op>)
    requires Laid(fields, |code|)
  {
    forall k: nat | k < |fields| ::
      FieldAt(code, fields[k].offset) ==
      (match BoundAt(ops, fields[k].to)
       case Some(position) => position - (fields[k].offset + 4)
       case None => 0)
  }

  /** A label knows whether and where it is bound; unbound, it lists each jump to it once, in order. */
  predicate LabelKnows(a: Assembly, fields: seq<Field>, ops: seq<Op>, l: nat) {
    LabelOf(a, l) ==
    match BoundAt(ops, l)
    case Some(position) => LabelState(true, position, [])
    case None => LabelState(false, 0, FieldsTo(fields, l))
  }

  ghost predicate Linked(a: Assembly, ops: seq<Op>) {
    var fields := Fields(ops);
    && Laid(fields, |a.code|)
    && OthersKept(a.code, Emitted(ops), fields)
    && Resolved(a.code, fields, ops)
    && forall l: nat :: LabelKnows(a, fields, ops, l)
  }

  lemma FieldSame(code: seq<byte>, other: seq<byte>, offset: nat)
    requires offset + 4 <= |code| && offset + 4 <= |other|
    requires forall i: nat | offset <= i < offset + 4 :: code[i] == other[i]
    ensures FieldAt(code, offset) == FieldAt(other, offset)
  {
  }

  lemma {:induction false} PatchAllReads(code: seq<byte>, offsets: seq<nat>, target: nat)
    requires Inside(code, offsets) && |code| < HALF && target <= |code|
    requires forall j: nat, k: nat | j < k < |offsets| :: offsets[j] + 4 <= offsets[k]
    ensures forall k: nat | k < |offsets| ::
        FieldAt(PatchAll(code, offsets, target), offsets[k]) == target - (offsets[k] + 4)
    ensures forall i: nat | i < |code| && (forall k: nat | k < |offsets| :: !(offsets[k] <= i < offsets[k] + 4)) ::
              PatchAll(code, offsets, target)[i] == code[i]
  {
    hide FieldAt, Patched;
    if offsets != [] {
      var last := offsets[|offsets| - 1];
      var rest := offsets[..|offsets| - 1];
      PatchAllReads(code, rest, target);
      var before := PatchAll(code, rest, target);
      var after := PatchAll(code, offsets, target);
      assert after == Patched(before, last, target);
      PatchReads(before, last, target);
      forall k: nat | k < |offsets|
        ensures FieldAt(after, offsets[k]) == target - (offsets[k] + 4)
      {
        if k < |rest| {
          assert rest[k] == offsets[k];
          FieldSame(after, before, offsets[k]);
        }
      }
      forall i: nat | i < |code| && (forall k: nat | k < |offsets| :: !(offsets[k] <= i < offsets[k] + 4))
        ensures after[i] == code[i]
      {
        assert offsets[|offsets| - 1] == last;
        assert forall k: nat | k < |rest| :: rest[k] == offsets[k];
        assert after[i] == before[i];
      }
    }
  }

  predicate IsField(fields: seq<Field>, offset: nat, l: nat) {
    exists j: nat :: j < |fields| && fields[j] == Field(offset, l)
  }

  lemma {:induction false} FieldsToSound(fields: seq<Field>, l: nat, size: nat)
    requires Laid(fields, size)
    ensures forall k: nat | k < |FieldsTo(fields, l)| :: IsField(fields, FieldsTo(fields, l)[k], l)
    ensures forall j: nat | j < |fields| && fields[j].to == l :: fields[j].offset in FieldsTo(fields, l)
    ensures forall j: nat, k: nat | j < k < |FieldsTo(fields, l)| ::
        FieldsTo(fields, l)[j] + 4 <= FieldsTo(fields, l)[k]
    ensures forall k: nat | k < |FieldsTo(fields, l)| :: FieldsTo(fields, l)[k] + 4 <= size
  {
    if fields != [] {
      var last := |fields| - 1;
      var rest := fields[..last];
      FieldsToSound(rest, l, size);
      var to := FieldsTo(fields, l);
      var before := FieldsTo(rest, l);
      forall k: nat | k < |to|
        ensures IsField(fields, to[k], l)
      {
        if k < |before| {
          assert IsField(rest, before[k], l);
          var j: nat :| j < |rest| && rest[j] == Field(before[k], l);
          assert fields[j] == Field(to[k], l);
        } else {
          assert fields[last] == Field(to[k], l);
        }
      }
      forall j: nat, k: nat | j < k < |to|
        ensures to[j] + 4 <= to[k]
      {
        if k == |before| {
          assert IsField(rest, before[j], l);
          var i: nat :| i < |rest| && rest[i] == Field(before[j], l);
          assert fields[i].offset + 4 <= fields[last].offset;
        }
      }
    }
  }

  // ---- Each step keeps the program linked --------------------------------------------------------------------

  lemma BoundOncePrefix(ops: seq<Op>)
    requires |ops| > 0 && BoundOnce(ops)
    ensures BoundOnce(ops[..|ops| - 1])
    ensures ops[|ops| - 1].Binds? ==> BoundAt(ops[..|ops| - 1], ops[|ops| - 1].what).None?
  {
    var before := ops[..|ops| - 1];
    forall i: nat | i < |before| && before[i].Binds?
      ensures BoundAt(before[..i], before[i].what).None?
    {
      assert before[..i] == ops[..i] && before[i] == ops[i];
    }
  }

  lemma EmitsKeep(code: seq<byte>, emitted: seq<byte>, fields: seq<Field>, bytes: seq<byte>)
    requires Laid(fields, |code|) && OthersKept(code, emitted, fields)
    ensures Laid(fields, |code + bytes|) && OthersKept(code + bytes, emitted + bytes, fields)
    ensures forall k: nat | k < |fields| :: FieldAt(code + bytes, fields[k].offset) == FieldAt(code, fields[k].offset)
  {
    forall k: nat | k < |fields|
      ensures FieldAt(code + bytes, fields[k].offset) == FieldAt(code, fields[k].offset)
    {
      hide FieldAt;
      FieldSame(code + bytes, code, fields[k].offset);
    }
  }

  lemma ZeroField(code: seq<byte>)
    ensures FieldAt(code + [0, 0, 0, 0], |code|) == 0
  {
  }

  lemma JumpKeeps(code: seq<byte>, emitted: seq<byte>, fields: seq<Field>, prefix: Option<byte>, opcode: byte,
                  l: LabelState, to: nat)
    requires Laid(fields, |code|) && OthersKept(code, emitted, fields)
    requires |code| + |Opcode(prefix, opcode)| + 4 < HALF && (l.bound ==> l.position <= |code|)
    ensures (var more := JumpCode(code, prefix, opcode, l);
             var offset := |code| + |Opcode(prefix, opcode)|;
             && Laid(fields + [Field(offset, to)], |more|)
             && OthersKept(more, emitted + Opcode(prefix, opcode) + [0, 0, 0, 0], fields + [Field(offset, to)])
             && (forall k: nat | k < |fields| :: FieldAt(more, fields[k].offset) == FieldAt(code, fields[k].offset))
             && FieldAt(more, offset) == if l.bound then l.position - (offset + 4) else 0)
  {
    hide FieldAt, Patched;
    var start := code + Opcode(prefix, opcode);
    var placed := start + [0, 0, 0, 0];
    var offset := |start|;
    var more := JumpCode(code, prefix, opcode, l);
    ZeroField(start);
    if l.bound {
      PatchReads(placed, offset, l.position);
    }
    assert forall i: nat | i < offset :: more[i] == placed[i] == start[i];
    forall k: nat | k < |fields|
      ensures FieldAt(more, fields[k].offset) == FieldAt(code, fields[k].offset)
    {
      FieldSame(more, code, fields[k].offset);
    }
    KeepsMore(code, emitted, fields, Opcode(prefix, opcode), more, Field(offset, to));
  }

  lemma KeepsMore(code: seq<byte>, emitted: seq<byte>, fields: seq<Field>, bytes: seq<byte>, more: seq<byte>, f: Field)
    requires Laid(fields, |code|) && OthersKept(code, emitted, fields)
    requires f.offset == |code| + |bytes| && |more| == f.offset + 4
    requires forall i: nat | i < f.offset :: more[i] == (code + bytes)[i]
    ensures Laid(fields + [f], |more|)
    ensures OthersKept(more, emitted + bytes + [0, 0, 0, 0], fields + [f])
  {
    var all := fields + [f];
    forall i: nat | i < |more| && !InField(all, i)
      ensures more[i] == (emitted + bytes + [0, 0, 0, 0])[i]
    {
      InFieldMore(fields, f, i);
    }
  }

  lemma InFieldMore(fields: seq<Field>, f: Field, i: nat)
    ensures InField(fields + [f], i) <==> InField(fields, i) || f.offset <= i < f.offset + 4
  {
    var all := fields + [f];
    assert all[|fields|] == f;
    assert forall k: nat | k < |fields| :: all[k] == fields[k];
  }

  lemma BindKeeps(code: seq<byte>, emitted: seq<byte>, fields: seq<Field>, what: nat)
    requires Laid(fields, |code|) && OthersKept(code, emitted, fields) && |code| < HALF
    ensures Inside(code, FieldsTo(fields, what))
    ensures (var bound := PatchAll(code, FieldsTo(fields, what), |code|);
             && OthersKept(bound, emitted, fields)
             && forall k: nat | k < |fields| ::
                  FieldAt(bound, fields[k].offset) ==
                  if fields[k].to == what then |code| - (fields[k].offset + 4) else FieldAt(code, fields[k].offset))
  {
    hide FieldAt, PatchAll, FieldsTo;
    var to := FieldsTo(fields, what);
    FieldsToSound(fields, what, |code|);
    PatchAllReads(code, to, |code|);
    var bound := PatchAll(code, to, |code|);
    forall i: nat | i < |code| && !InField(fields, i)
      ensures bound[i] == code[i]
    {
      forall k: nat | k < |to|
        ensures !(to[k] <= i < to[k] + 4)
      {
        assert IsField(fields, to[k], what);
        var j: nat :| j < |fields| && fields[j] == Field(to[k], what);
      }
    }
    forall k: nat | k < |fields|
      ensures FieldAt(bound, fields[k].offset) ==
              if fields[k].to == what then |code| - (fields[k].offset + 4) else FieldAt(code, fields[k].offset)
    {
      if fields[k].to == what {
        var j: nat :| j < |to| && to[j] == fields[k].offset;
      } else {
        forall i: nat | fields[k].offset <= i < fields[k].offset + 4
          ensures bound[i] == code[i]
        {
          forall m: nat | m < |to|
            ensures !(to[m] <= i < to[m] + 4)
          {
            assert IsField(fields, to[m], what);
            var j: nat :| j < |fields| && fields[j] == Field(to[m], what);
            OtherField(fields, |code|, j, k, i);
          }
        }
        FieldSame(bound, code, fields[k].offset);
      }
    }
  }

  lemma OtherField(fields: seq<Field>, size: nat, j: nat, k: nat, i: nat)
    requires Laid(fields, size) && j < |fields| && k < |fields| && fields[j].to != fields[k].to
    requires fields[k].offset <= i < fields[k].offset + 4
    ensures !(fields[j].offset <= i < fields[j].offset + 4)
  {
    if j < k {
      assert fields[j].offset + 4 <= fields[k].offset;
    } else {
      assert fields[k].offset + 4 <= fields[j].offset;
    }
  }

  lemma {:induction false} BoundInside(ops: seq<Op>, l: nat)
    ensures BoundAt(ops, l).Some? ==> BoundAt(ops, l).value <= |Emitted(ops)|
  {
    if ops != [] {
      BoundInside(ops[..|ops| - 1], l);
    }
  }

  /** One unfolding of everything that is defined along the operations. */
  lemma Unfold(ops: seq<Op>, before: seq<Op>, last: Op)
    requires ops == before + [last]
    ensures Run(ops) == Step(Run(before), last)
    ensures Emitted(ops) == (match last
                             case Emits(bytes) => Emitted(before) + bytes
                             case Jumps(prefix, opcode, _) => Emitted(before) + Opcode(prefix, opcode) + [0, 0, 0, 0]
                             case Binds(_) => Emitted(before))
    ensures Fields(ops) == (match last
                            case Jumps(prefix, opcode, to) =>
                              Fields(before) + [Field(|Emitted(before)| + |Opcode(prefix, opcode)|, to)]
                            case _ => Fields(before))
    ensures forall l: nat :: BoundAt(ops, l) == if last == Binds(l) then Some(|Emitted(before)|) else BoundAt(before, l)
  {
    hide *;
    UnfoldRun(ops, before, last);
    UnfoldEmitted(ops, before, last);
    UnfoldFields(ops, before, last);
    UnfoldBound(ops, before, last);
  }

  lemma UnfoldRun(ops: seq<Op>, before: seq<Op>, last: Op)
    requires ops == before + [last]
    ensures Run(ops) == Step(Run(before), last)
  {
    hide Step;
    assert ops[..|ops| - 1] == before && ops[|ops| - 1] == last;
  }

  lemma UnfoldEmitted(ops: seq<Op>, before: seq<Op>, last: Op)
    requires ops == before + [last]
    ensures Emitted(ops) == (match last
                             case Emits(bytes) => Emitted(before) + bytes
                             case Jumps(prefix, opcode, _) => Emitted(before) + Opcode(prefix, opcode) + [0, 0, 0, 0]
                             case Binds(_) => Emitted(before))
  {
    assert ops[..|ops| - 1] == before && ops[|ops| - 1] == last;
    if last.Jumps? {
      OpcodeFirst(Emitted(before), last.prefix, last.opcode);
    }
    hide Opcode;
  }

  /** The prefix comes before the opcode. */
  lemma OpcodeFirst(code: seq<byte>, prefix: Option<byte>, opcode: byte)
    ensures prefix.Some? ==> code + Opcode(prefix, opcode) + [0, 0, 0, 0] == code + [prefix.value, opcode, 0, 0, 0, 0]
    ensures prefix.None? ==> code + Opcode(prefix, opcode) + [0, 0, 0, 0] == code + [opcode, 0, 0, 0, 0]
  {
  }

  lemma UnfoldFields(ops: seq<Op>, before: seq<Op>, last: Op)
    requires ops == before + [last]
    ensures Fields(ops) == (match last
                            case Jumps(prefix, opcode, to) =>
                              Fields(before) + [Field(|Emitted(before)| + |Opcode(prefix, opcode)|, to)]
                            case _ => Fields(before))
  {
    hide Emitted;
    assert ops[..|ops| - 1] == before && ops[|ops| - 1] == last;
  }

  lemma UnfoldBound(ops: seq<Op>, before: seq<Op>, last: Op)
    requires ops == before + [last]
    ensures forall l: nat :: BoundAt(ops, l) == if last == Binds(l) then Some(|Emitted(before)|) else BoundAt(before, l)
  {
    hide Emitted;
    assert ops[..|ops| - 1] == before && ops[|ops| - 1] == last;
  }

  lemma EmitsLinked(ops: seq<Op>, before: seq<Op>, bytes: seq<byte>)
    requires ops == before + [Emits(bytes)] && Linked(Run(before), before)
    ensures Linked(Run(ops), ops)
  {
    hide *;
    Unfold(ops, before, Emits(bytes));
    var a, fields, emitted := Run(before), Fields(before), Emitted(before);
    LinkedParts(a, before, fields, emitted);
    StepEmits(a, bytes);
    EmitsKeep(a.code, emitted, fields, bytes);
    SameBounds(a, Step(a, Emits(bytes)), fields, before, ops);
    LinkedParts(Run(ops), ops, fields, emitted + bytes);
  }

  lemma StepEmits(a: Assembly, bytes: seq<byte>)
    requires Sound(a)
    ensures Step(a, Emits(bytes)) == Assembly(a.code + bytes, a.labels)
  {
  }

  /** Where no label is bound and no field changes, what is resolved and known stays so. */
  lemma SameBounds(a: Assembly, b: Assembly, fields: seq<Field>, before: seq<Op>, ops: seq<Op>)
    requires Laid(fields, |a.code|) && Laid(fields, |b.code|) && a.labels == b.labels
    requires Resolved(a.code, fields, before) && forall l: nat :: LabelKnows(a, fields, before, l)
    requires forall l: nat :: BoundAt(ops, l) == BoundAt(before, l)
    requires forall k: nat | k < |fields| :: FieldAt(b.code, fields[k].offset) == FieldAt(a.code, fields[k].offset)
    ensures Resolved(b.code, fields, ops) && forall l: nat :: LabelKnows(b, fields, ops, l)
  {
    hide FieldAt, BoundAt, FieldsTo;
    forall l: nat
      ensures LabelKnows(b, fields, ops, l)
    {
      assert LabelKnows(a, fields, before, l);
    }
  }

  lemma FieldsToMore(fields: seq<Field>, f: Field, l: nat)
    ensures FieldsTo(fields + [f], l) == FieldsTo(fields, l) + if f.to == l then [f.offset] else []
  {
    var all := fields + [f];
    assert all[..|all| - 1] == fields && all[|all| - 1] == f;
  }

  /** The parts of a linked program, taken apart and put together. */
  lemma LinkedParts(a: Assembly, ops: seq<Op>, fields: seq<Field>, emitted: seq<byte>)
    requires fields == Fields(ops) && emitted == Emitted(ops)
    ensures Linked(a, ops) <==>
            && Laid(fields, |a.code|) && OthersKept(a.code, emitted, fields) && Resolved(a.code, fields, ops)
            && forall l: nat :: LabelKnows(a, fields, ops, l)
  {
    hide Laid, OthersKept, Resolved, LabelKnows, Fields, Emitted;
  }

  lemma StepJump(a: Assembly, prefix: Option<byte>, opcode: byte, to: nat)
    requires Sound(a)
    ensures var l, b := LabelOf(a, to), Step(a, Jumps(prefix, opcode, to));
      && b.code == JumpCode(a.code, prefix, opcode, l)
      && b.labels == a.labels[to :=
           if l.bound then l else l.(pending := l.pending + [|a.code| + |Opcode(prefix, opcode)|])]
  {
    hide JumpCode, Opcode;
  }

  /** What the label of a jump says about its target. */
  lemma TargetKnown(a: Assembly, fields: seq<Field>, ops: seq<Op>, to: nat)
    requires LabelKnows(a, fields, ops, to)
    ensures var l := LabelOf(a, to);
      l.bound == BoundAt(ops, to).Some? && (l.bound ==> l.position == BoundAt(ops, to).value)
  {
    hide BoundAt, FieldsTo;
  }

  lemma JumpsLinked(ops: seq<Op>, before: seq<Op>, prefix: Option<byte>, opcode: byte, to: nat)
    requires ops == before + [Jumps(prefix, opcode, to)] && Linked(Run(before), before)
    requires |Emitted(ops)| < HALF
    ensures Linked(Run(ops), ops)
  {
    hide *;
    Unfold(ops, before, Jumps(prefix, opcode, to));
    var a, b, fields, emitted := Run(before), Run(ops), Fields(before), Emitted(before);
    LinkedParts(a, before, fields, emitted);
    KeptLength(a.code, emitted, fields);
    JumpLinks(a, b, before, ops, fields, emitted, prefix, opcode, to);
    LinkedParts(b, ops, Fields(ops), Emitted(ops));
  }

  lemma JumpLinks(a: Assembly, b: Assembly, before: seq<Op>, ops: seq<Op>, fields: seq<Field>, emitted: seq<byte>,
                  prefix: Option<byte>, opcode: byte, to: nat)
    requires Sound(a) && b == Step(a, Jumps(prefix, opcode, to)) && |a.code| + |Opcode(prefix, opcode)| + 4 < HALF
    requires emitted == Emitted(before)
    requires Laid(fields, |a.code|) && OthersKept(a.code, emitted, fields) && Resolved(a.code, fields, before)
    requires forall l: nat :: LabelKnows(a, fields, before, l)
    requires forall l: nat :: BoundAt(ops, l) == BoundAt(before, l)
    ensures var all := fields + [Field(|a.code| + |Opcode(prefix, opcode)|, to)];
      && Laid(all, |b.code|) && OthersKept(b.code, emitted + Opcode(prefix, opcode) + [0, 0, 0, 0], all)
      && Resolved(b.code, all, ops) && forall l: nat :: LabelKnows(b, all, ops, l)
  {
    hide *;
    var l, f := LabelOf(a, to), Field(|a.code| + |Opcode(prefix, opcode)|, to);
    StepJump(a, prefix, opcode, to);
    assert LabelKnows(a, fields, before, to);
    TargetKnown(a, fields, before, to);
    BoundInside(before, to);
    KeptLength(a.code, emitted, fields);
    JumpKeeps(a.code, emitted, fields, prefix, opcode, l, to);
    LaidInside(fields, |a.code|);
    LaidInside(fields + [f], |b.code|);
    assert (fields + [f])[|fields|] == f;
    ResolvedMore(a.code, b.code, fields, f, before, ops);
    LabelsMore(a, b, fields, f, before, ops);
  }

  lemma LaidInside(fields: seq<Field>, size: nat)
    requires Laid(fields, size)
    ensures forall k: nat | k < |fields| :: fields[k].offset + 4 <= size
  {
  }

  lemma LabelsMore(a: Assembly, b: Assembly, fields: seq<Field>, f: Field, before: seq<Op>, ops: seq<Op>)
    requires forall l: nat :: LabelKnows(a, fields, before, l)
    requires forall l: nat :: BoundAt(ops, l) == BoundAt(before, l)
    requires var l := LabelOf(a, f.to);
             b.labels == a.labels[f.to := if l.bound then l else l.(pending := l.pending + [f.offset])]
    ensures forall l: nat :: LabelKnows(b, fields + [f], ops, l)
  {
    hide BoundAt, FieldsTo;
    assert LabelKnows(a, fields, before, f.to);
    forall l: nat
      ensures LabelKnows(b, fields + [f], ops, l)
    {
      assert LabelKnows(a, fields, before, l);
      FieldsToMore(fields, f, l);
    }
  }

  lemma ResolvedMore(code: seq<byte>, more: seq<byte>, fields: seq<Field>, f: Field, before: seq<Op>, ops: seq<Op>)
    requires Laid(fields, |code|) && Laid(fields + [f], |more|) && Resolved(code, fields, before)
    requires forall k: nat | k < |fields| ::
               fields[k].offset + 4 <= |more| && FieldAt(more, fields[k].offset) == FieldAt(code, fields[k].offset)
    requires forall l: nat :: BoundAt(ops, l) == BoundAt(before, l)
    requires f.offset + 4 <= |more|
    requires FieldAt(more, f.offset) == match BoundAt(ops, f.to) case Some(p) => p - (f.offset + 4) case None => 0
    ensures Resolved(more, fields + [f], ops)
  {
    hide FieldAt, BoundAt, Laid;
    var all := fields + [f];
    forall k: nat | k < |all|
      ensures all[k].offset + 4 <= |more|
      ensures FieldAt(more, all[k].offset) ==
              (match BoundAt(ops, all[k].to)
               case Some(position) => position - (all[k].offset + 4)
               case None => 0)
    {
      if k < |fields| { assert all[k] == fields[k]; }
    }
  }

  lemma KeptLength(code: seq<byte>, emitted: seq<byte>, fields: seq<Field>)
    requires OthersKept(code, emitted, fields)
    ensures |code| == |emitted|
  {
  }

  lemma BindsLinked(ops: seq<Op>, before: seq<Op>, what: nat)
    requires ops == before + [Binds(what)] && Linked(Run(before), before)
    requires |Emitted(ops)| < HALF && BoundAt(before, what).None?
    ensures Linked(Run(ops), ops)
  {
    Unfold(ops, before, Binds(what));
    hide Run, Emitted, Fields, BoundAt, FieldAt, FieldsTo, PatchAll, OthersKept, Laid;
    var a, b := Run(before), Run(ops);
    var fields := Fields(before);
    assert LabelKnows(a, fields, before, what);
    KeptLength(a.code, Emitted(before), fields);
    BindKeeps(a.code, Emitted(before), fields, what);
    assert b.code == PatchAll(a.code, FieldsTo(fields, what), |a.code|);
    ResolvedBound(a.code, b.code, fields, before, ops, what);
    hide Resolved;
    forall l: nat
      ensures LabelKnows(b, fields, ops, l)
    {
      assert LabelKnows(a, fields, before, l);
    }
  }

  lemma ResolvedBound(code: seq<byte>, bound: seq<byte>, fields: seq<Field>, before: seq<Op>, ops: seq<Op>, what: nat)
    requires |code| == |bound| && Laid(fields, |code|) && Resolved(code, fields, before)
    requires forall k: nat | k < |fields| ::
               FieldAt(bound, fields[k].offset) ==
               if fields[k].to == what then |code| - (fields[k].offset + 4) else FieldAt(code, fields[k].offset)
    requires forall l: nat :: BoundAt(ops, l) == if l == what then Some(|code|) else BoundAt(before, l)
    ensures Resolved(bound, fields, ops)
  {
    hide FieldAt, BoundAt, Laid;
  }

  /** After any mix of emits, jumps and first-time binds, the code is linked. */
  lemma {:induction false} RunLinked(ops: seq<Op>)
    requires BoundOnce(ops) && |Emitted(ops)| < HALF
    ensures Linked(Run(ops), ops)
  {
    hide Linked, Run, BoundAt;
    if ops == [] {
      NothingLinked();
    } else {
      var before := ops[..|ops| - 1];
      BoundOncePrefix(ops);
      EmittedGrows(ops);
      RunLinked(before);
      assert ops == before + [ops[|ops| - 1]];
      match ops[|ops| - 1]
      case Emits(bytes) => EmitsLinked(ops, before, bytes);
      case Jumps(prefix, opcode, to) => JumpsLinked(ops, before, prefix, opcode, to);
      case Binds(what) => BindsLinked(ops, before, what);
    }
  }

  /** A label bound again moves without its jumps: the code stays linked exactly when there are none yet,
      or when it stays where it was. */
  lemma RebindIff(ops: seq<Op>, before: seq<Op>, what: nat)
    requires ops == before + [Binds(what)] && Linked(Run(before), before) && BoundAt(before, what).Some?
    ensures Linked(Run(ops), ops) <==>
            (FieldsTo(Fields(before), what) == [] || BoundAt(before, what).value == |Emitted(before)|)
  {
    Unfold(ops, before, Binds(what));
    hide Run, Emitted, Fields, BoundAt, FieldAt, FieldsTo, OthersKept, Laid;
    var a, b := Run(before), Run(ops);
    var fields := Fields(before);
    KeptLength(a.code, Emitted(before), fields);
    assert LabelKnows(a, fields, before, what);
    assert b.code == a.code;
    forall l: nat
      ensures LabelKnows(b, fields, ops, l)
    {
      assert LabelKnows(a, fields, before, l);
    }
    RebindResolves(a.code, fields, before, ops, what);
    hide Resolved, LabelKnows;
  }

  lemma RebindResolves(code: seq<byte>, fields: seq<Field>, before: seq<Op>, ops: seq<Op>, what: nat)
    requires Laid(fields, |code|) && Resolved(code, fields, before) && BoundAt(before, what).Some?
    requires forall l: nat :: BoundAt(ops, l) == if l == what then Some(|code|) else BoundAt(before, l)
    ensures Resolved(code, fields, ops) <==> (FieldsTo(fields, what) == [] || BoundAt(before, what).value == |code|)
  {
    FieldsToSound(fields, what, |code|);
    hide BoundAt, FieldAt, FieldsTo, Laid;
    var to := FieldsTo(fields, what);
    if to != [] {
      assert IsField(fields, to[0], what);
      var j: nat :| j < |fields| && fields[j] == Field(to[0], what);
      assert FieldAt(code, fields[j].offset) == BoundAt(before, what).value - (fields[j].offset + 4);
    }
  }

  lemma EmittedGrows(ops: seq<Op>)
    requires ops != []
    ensures |Emitted(ops[..|ops| - 1])| <= |Emitted(ops)|
  {
  }

  lemma NothingLinked()
    ensures Linked(Run([]), [])
  {
  }

  const JUMP: Op := Jumps(None, 0xE9, 0)
  const BIND: Op := Binds(0)
  const NOP: Op := Emits([0x90])

  lemma OneJump()
    ensures Fields([JUMP]) == [Field(1, 0)] && BoundAt([JUMP], 0) == None && |Emitted([JUMP])| == 5
  {
    hide Run, Step, Emitted, Fields, BoundAt;
    NoneBound();
    assert [] + [JUMP] == [JUMP];
    Unfold([JUMP], [], JUMP);
  }

  lemma JumpThenBind()
    ensures var ops := [JUMP, BIND]; Fields(ops) == [Field(1, 0)] && BoundAt(ops, 0) == Some(5) && |Emitted(ops)| == 5
  {
    hide Run, Step, Emitted, Fields, BoundAt;
    OneJump();
    assert [JUMP] + [BIND] == [JUMP, BIND];
    Unfold([JUMP, BIND], [JUMP], BIND);
  }

  /** A jump, its label, and one more byte. */
  lemma JumpBound()
    ensures var ops := [JUMP, BIND, NOP];
      BoundOnce(ops) && Fields(ops) == [Field(1, 0)] && BoundAt(ops, 0) == Some(5) && |Emitted(ops)| == 6
  {
    hide Run, Step, Emitted, Fields, BoundAt;
    OneJump();
    JumpThenBind();
    assert [JUMP, BIND] + [NOP] == [JUMP, BIND, NOP];
    Unfold([JUMP, BIND, NOP], [JUMP, BIND], NOP);
    assert [JUMP, BIND, NOP][..1] == [JUMP];
  }

  lemma NoneBound()
    ensures forall l: nat :: BoundAt([], l) == None
    ensures Emitted([]) == [] && Fields([]) == []
  {
  }

  /** After a run that jumps, binds, emits and binds again, the jump still leads to the first place. */
  lemma RebindBreaks()
    ensures var ops := [JUMP, BIND, NOP, BIND];
      && !Linked(Run(ops), ops) && BoundAt(ops, 0) == Some(6)
      && |Run(ops).code| == 6 && FieldAt(Run(ops).code, 1) == 5 - (1 + 4)
  {
    var before, ops := [JUMP, BIND, NOP], [JUMP, BIND, NOP, BIND];
    assert ops == before + [BIND];
    JumpBound();
    Unfold(ops, before, BIND);
    hide Run, Emitted, Fields, BoundAt, FieldAt, FieldsTo, BoundOnce;
    RunLinked(before);
    var a := Run(before);
    assert LabelKnows(a, Fields(before), before, 0);
    KeptLength(a.code, Emitted(before), Fields(before));
    assert FieldAt(a.code, Fields(before)[0].offset) == 0;
    FieldsToMore([], Field(1, 0), 0);
    assert Fields(before) == [] + [Field(1, 0)];
    RebindIff(ops, before, 0);
  }
}
