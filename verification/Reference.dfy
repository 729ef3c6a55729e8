/**
 What two user programs may expect of the kernel, told without the kernel: who runs,
 who waits for what, which numbered handles each holds, the mailbox, the approval
 desk and the rows of the journal. Every answer is the plain number a program reads.
 */
module Reference {
  import opened Words
  import TrapAbi

  type Registers = TrapAbi.TrapFrame

  /** A word keeps the low 64 bits of a number. */
  function Word(n: nat): u64 {
    n % 0x1_0000_0000_0000_0000
  }

  // Answers ----------------------------------------------------------------------------------------

  const OK: u64 := 0
  const MALFORMED: u64 := 1
  const MAILBOX_FULL: u64 := 4
  const PEER_GONE: u64 := 5
  const NO_HANDLE: u64 := 6
  const OTHER_OBJECT: u64 := 7
  const NOT_ALLOWED: u64 := 8
  const BAD_RIGHTS: u64 := 9
  const ALL_HELD: u64 := 10
  const NAMES_SPENT: u64 := 11
  const BAD_MANIFEST: u64 := 12
  const BAD_REQUEST: u64 := 13
  const MISMATCH: u64 := 15
  const DENIED: u64 := 16
  const EXPIRED: u64 := 17
  const EFFECT_TAKEN: u64 := 18
  const DESK_CLOSED: u64 := 19
  const ALREADY_LAUNCHED: u64 := 20
  const JOURNAL_FULL: u64 := 21
  const JOURNAL_CLOSED: u64 := 22
  const NO_RECORD: u64 := 23

  // State ------------------------------------------------------------------------------------------

  datatype Right = MaySend | MayReceive | MayDuplicate | MayStart | MaySubmit | MayDecide | MayCommit | MayRead {
    function Weight(): u64 {
      match this
      case MaySend => 1
      case MayReceive => 2
      case MayDuplicate => 4
      case MayStart => 8
      case MaySubmit => 16
      case MayDecide => 32
      case MayCommit => 64
      case MayRead => 128
    }
  }

  /** The rights whose bits are set. */
  function Rights(bits: u64): set<Right> {
    set r: Right | (bits / r.Weight()) % 2 == 1
  }

  datatype Thing = Mail | Control | Desk | Effect | Book

  datatype Power = Power(thing: Thing, rights: set<Right>)

  datatype Mood = Staged | Waiting | Busy | AwaitsMessage | AwaitsDecision

  /**
   A program: its registers, what each handle it holds lets it do, and for each of its sixteen places the handle
   that is there or comes next, 0 once a place has run out of handles.
   */
  datatype Task = Gone | Present(mood: Mood, registers: Registers, held: map<u64, Power>, names: seq<u64>)

  datatype Ask = Ask(number: u64, argument: u64, approved: bool)

  /** The open approval desk: how often it was asked, its clock, and the request on it. */
  datatype ApprovalDesk = ApprovalDesk(asked: u64, clock: u64, ask: Option<Ask>)

  /** Rows of sixteen words each. */
  datatype Log = Log(rows: seq<seq<u64>>, closed: bool)

  datatype Turn = Of(task: u64) | Done | Stuck

  datatype World = World(
    supervised: bool, turn: Turn, first: Task, second: Task, line: seq<u64>,
    mailbox: Option<u64>, desk: Option<ApprovalDesk>, deed: Option<u64>, log: Option<Log>)

  function At(w: World, who: u64): Task {
    if who == 1 then w.first else w.second
  }

  function Put(w: World, who: u64, task: Task): World {
    if who == 1 then w.(first := task) else w.(second := task)
  }

  function Feel(w: World, who: u64, mood: Mood): World {
    match At(w, who)
    case Gone => w
    case Present(_, registers, held, names) => Put(w, who, Present(mood, registers, held, names))
  }

  function Show(w: World, who: u64, registers: Registers): World {
    match At(w, who)
    case Gone => w
    case Present(mood, _, held, names) => Put(w, who, Present(mood, registers, held, names))
  }

  /** An answer goes to rax and its value to rdx; the program keeps everything else. */
  function Tell(w: World, who: u64, answer: u64, value: u64): World {
    match At(w, who)
    case Gone => w
    case Present(_, registers, _, _) => Show(w, who, registers.(rax := answer, rdx := value))
  }

  function Tell4(w: World, who: u64, answer: u64, a: u64, b: u64, c: u64): World {
    match At(w, who)
    case Gone => w
    case Present(_, registers, _, _) => Show(w, who, registers.(rax := answer, rdi := a, rsi := b, rdx := c))
  }

  /** The second program's wait ends with an answer; it stands in line. */
  function Wake(w: World, answer: u64, value: u64): World {
    Feel(Tell(w, 2, answer, value), 2, Waiting).(line := w.line + [2])
  }

  /** The processor goes to the head of the line. */
  function Next(w: World): World {
    if w.line == [] then w.(turn := if w.first.Gone? && w.second.Gone? then Done else Stuck)
    else Feel(w, w.line[0], Busy).(line := w.line[1..], turn := Of(w.line[0]))
  }

  // Handles ----------------------------------------------------------------------------------------

  /** What these handles lack for this use, or 0. */
  function Lacking(held: map<u64, Power>, handle: u64, thing: Thing, right: Right): u64 {
    if handle !in held then NO_HANDLE
    else if held[handle].thing != thing then OTHER_OBJECT
    else if right !in held[handle].rights then NOT_ALLOWED
    else OK
  }

  /** Why the handle is no good for this, or 0; the desk is gone with the first program. */
  function Refusal(w: World, who: u64, handle: u64, thing: Thing, right: Right): u64 {
    match At(w, who)
    case Gone => NO_HANDLE
    case Present(_, _, held, _) =>
      var lacking := Lacking(held, handle, thing, right);
      if lacking == OK && thing == Desk && w.first.Gone? then NO_HANDLE else lacking
  }

  /** The first place that holds nothing and still has a name, or 16. */
  function Vacant(held: map<u64, Power>, names: seq<u64>, from: nat): nat
    decreases |names| - from
  {
    if from >= |names| then |names|
    else if names[from] != 0 && names[from] !in held then from
    else Vacant(held, names, from + 1)
  }

  function Duplicate(w: World, me: u64, handle: u64, wanted: u64, zero: u64): World
    requires At(w, me).Present?
  {
    var t := At(w, me);
    var refusal := Refusal(w, me, handle, Mail, MayDuplicate);
    if zero != 0 then Tell(w, me, MALFORMED, 0)
    else if refusal != OK then Tell(w, me, refusal, 0)
    else if wanted == 0 || wanted > 7 || !(Rights(wanted) <= t.held[handle].rights) then Tell(w, me, BAD_RIGHTS, 0)
    else
      var i := Vacant(t.held, t.names, 0);
      if i >= |t.names| then
        Tell(w, me, if forall k :: 0 <= k < |t.names| ==> t.names[k] in t.held then ALL_HELD else NAMES_SPENT, 0)
      else
        var richer := t.(held := t.held[t.names[i] := Power(t.held[handle].thing, Rights(wanted))]);
        Tell(Put(w, me, richer), me, OK, t.names[i])
  }

  /** A closed handle is gone for good: its place goes on to the name sixteen higher, the last one excepted. */
  function Close(w: World, me: u64, handle: u64, zero: u64, zero': u64): World
    requires At(w, me).Present? && |At(w, me).names| == 16
  {
    var t := At(w, me);
    if zero != 0 || zero' != 0 then Tell(w, me, MALFORMED, 0)
    else if handle !in t.held then Tell(w, me, NO_HANDLE, 0)
    else
      var next := if handle + 16 > U64_MAX then 0 else handle + 16;
      Tell(Put(w, me, t.(held := t.held - {handle}, names := t.names[handle % 16 := next])), me, OK, 0)
  }

  // Scheduling and mail ----------------------------------------------------------------------------

  function Yield(w: World, me: u64, i: Registers): World {
    if i.rdi != 0 || i.rsi != 0 || i.rdx != 0 then Tell(w, me, MALFORMED, 0)
    else Next(Feel(Tell(w, me, OK, 0), me, Waiting).(line := w.line + [me]))
  }

  function Send(w: World, me: u64, handle: u64, message: u64, zero: u64): World {
    var refusal := Refusal(w, me, handle, Mail, MaySend);
    if zero != 0 then Tell(w, me, MALFORMED, 0)
    else if refusal != OK then Tell(w, me, refusal, 0)
    else if w.second.Gone? then Tell(w, me, PEER_GONE, 0)
    else if w.mailbox.Some? then Tell(w, me, MAILBOX_FULL, 0)
    else if w.second.mood == AwaitsMessage then Tell(Wake(w, OK, message), me, OK, 0)
    else Tell(w.(mailbox := Some(message)), me, OK, 0)
  }

  function Receive(w: World, me: u64, handle: u64, zero: u64, zero': u64): World {
    var refusal := Refusal(w, me, handle, Mail, MayReceive);
    if zero != 0 || zero' != 0 then Tell(w, me, MALFORMED, 0)
    else if refusal != OK then Tell(w, me, refusal, 0)
    else if w.mailbox.Some? then Tell(w.(mailbox := None), me, OK, w.mailbox.value)
    else if w.first.Gone? then Tell(w, me, PEER_GONE, 0)
    else Next(Feel(w, me, AwaitsMessage))
  }

  // The approval desk ------------------------------------------------------------------------------

  function StartRefusal(w: World, me: u64, handle: u64, manifest: u64, zero: u64): u64 {
    var refusal := Refusal(w, me, handle, Control, MayStart);
    if zero != 0 then MALFORMED
    else if !w.supervised then OTHER_OBJECT
    else if refusal != OK then refusal
    else if manifest != 1 then BAD_MANIFEST
    else if w.second.Gone? || w.second.mood != Staged then ALREADY_LAUNCHED
    else OK
  }

  /** The second program stands in line, holding the one handle that lets it ask. */
  function Start(w: World, me: u64, handle: u64, manifest: u64, zero: u64): World {
    var refusal := StartRefusal(w, me, handle, manifest, zero);
    if refusal != OK then Tell(w, me, refusal, 0)
    else
      var launched := w.second.(mood := Waiting, held := map[16 := Power(Desk, {MaySubmit})]);
      Tell(w.(second := launched, line := w.line + [2]), me, OK, 0)
  }

  function SubmitRefusal(w: World, me: u64, handle: u64, kind: u64): u64 {
    var refusal := Refusal(w, me, handle, Desk, MaySubmit);
    if !w.supervised then OTHER_OBJECT
    else if refusal != OK then refusal
    else if w.desk.None? || w.desk.value.clock == U64_MAX then DESK_CLOSED
    else if kind != 1 then BAD_REQUEST
    else OK
  }

  /** The desk's clock when it next moves. */
  function Tick(w: World): u64 {
    if w.desk.None? then 0 else Word(w.desk.value.clock + 1)
  }

  /** A request goes on the desk under the next number, and its author waits. */
  function File(w: World, me: u64, argument: u64): World {
    match w.desk
    case None => w
    case Some(desk) =>
      var n := Word(desk.asked + 1);
      Feel(w.(desk := Some(ApprovalDesk(n, Tick(w), Some(Ask(n, argument, false))))), me, AwaitsDecision)
  }

  function Submit(w: World, me: u64, handle: u64, kind: u64, argument: u64): World {
    var refusal := SubmitRefusal(w, me, handle, kind);
    if refusal != OK then Tell(w, me, refusal, 0)
    else if w.log.Some? && w.log.value.closed then Tell(w, me, JOURNAL_CLOSED, 0)
    else if w.log.Some? && |w.log.value.rows| + 3 > 16 then Tell(w, me, JOURNAL_FULL, 0)
    else Next(File(Note(w, 1, OK, Tick(w), 2, Word(w.desk.value.asked + 1), 3, 16), me, argument))
  }

  function InspectRefusal(w: World, me: u64, handle: u64, zero: u64, zero': u64): u64 {
    var refusal := Refusal(w, me, handle, Desk, MayDecide);
    if zero != 0 || zero' != 0 then MALFORMED
    else if !w.supervised then OTHER_OBJECT
    else if refusal != OK then refusal
    else if w.desk.None? then DESK_CLOSED
    else if w.desk.value.ask.None? || w.desk.value.ask.value.approved then BAD_REQUEST
    else OK
  }

  function Inspect(w: World, me: u64, handle: u64, zero: u64, zero': u64): World {
    var refusal := InspectRefusal(w, me, handle, zero, zero');
    if refusal != OK then Tell(w, me, refusal, 0)
    else Tell4(w, me, OK, w.desk.value.ask.value.number, 1, w.desk.value.ask.value.argument)
  }

  /** 0 denies, 1 approves, 2 lets expire; only an expiry may follow an approval. */
  function DecideRefusal(w: World, me: u64, handle: u64, number: u64, decision: u64): u64 {
    var refusal := Refusal(w, me, handle, Desk, MayDecide);
    if !w.supervised then OTHER_OBJECT
    else if refusal != OK then refusal
    else if w.desk.None? then DESK_CLOSED
    else if w.desk.value.ask.None? || w.desk.value.ask.value.number != number then MISMATCH
    else if decision > 2 || (decision != 2 && w.desk.value.ask.value.approved) then BAD_REQUEST
    else OK
  }

  function Approve(w: World): World {
    match w.desk
    case Some(ApprovalDesk(asked, _, Some(ask))) =>
      w.(desk := Some(ApprovalDesk(asked, Tick(w), Some(ask.(approved := true)))))
    case _ => w
  }

  /** The request leaves the desk and its author is told how it ended. */
  function Settle(w: World, answer: u64, value: u64): World {
    match w.desk
    case None => w
    case Some(desk) => Wake(w.(desk := Some(ApprovalDesk(desk.asked, Tick(w), None))), answer, value)
  }

  function Decide(w: World, me: u64, handle: u64, number: u64, decision: u64): World {
    var refusal := DecideRefusal(w, me, handle, number, decision);
    if refusal != OK then Tell(w, me, refusal, 0)
    else if w.desk.value.clock == U64_MAX || (decision == 1 && w.desk.value.clock + 1 == U64_MAX) then
      Tell(Wake(w.(desk := None), DESK_CLOSED, 0), me, DESK_CLOSED, 0)
    else if decision == 1 then Tell(Approve(Note(w, 2, OK, Tick(w), 1, number, 3, 32)), me, OK, 0)
    else if decision == 0 then Tell(Settle(Note(w, 3, DENIED, Tick(w), 1, number, 3, 32), DENIED, 0), me, OK, 0)
    else Tell(Settle(Note(w, 4, EXPIRED, Tick(w), 1, number, 3, 32), EXPIRED, 0), me, OK, 0)
  }

  function CommitRefusal(w: World, me: u64, handle: u64, number: u64, argument: u64): u64 {
    var refusal := Refusal(w, me, handle, Effect, MayCommit);
    if !w.supervised then OTHER_OBJECT
    else if refusal != OK then refusal
    else if w.desk.None? || w.desk.value.ask != Some(Ask(number, argument, true)) then MISMATCH
    else if w.deed.Some? then EFFECT_TAKEN
    else OK
  }

  /** With a journal, a commit that finds the effect taken also ends the request. */
  function Commit(w: World, me: u64, handle: u64, number: u64, argument: u64): World {
    var refusal := CommitRefusal(w, me, handle, number, argument);
    if refusal == OK then
      var done := Note(w, 5, OK, Tick(w), 1, number, 4, 64).(deed := Some(argument));
      Tell(Settle(done, OK, argument), me, OK, 0)
    else if refusal == EFFECT_TAKEN && w.log.Some? then
      Tell(Settle(Note(w, 6, EFFECT_TAKEN, Tick(w), 1, number, 4, 64), EFFECT_TAKEN, 0), me, EFFECT_TAKEN, 0)
    else Tell(w, me, refusal, 0)
  }

  // The journal ------------------------------------------------------------------------------------

  /** The generation each task carries; the system has none. */
  function Generation(who: u64): u64 {
    if who == 1 then 4 else if who == 2 then 5 else 0
  }

  /**
   A row: version and size, kind and status, position, clock, principal 1, the actor, the second program as
   subject, the request, action 1, the object with number and generation 1, the rights used, and a zero.
   */
  function Row(position: nat, kind: u64, status: u64, clock: u64, who: u64, number: u64, thing: u64, rights: u64):
    seq<u64>
  {
    [128 * 0x1_0000_0000 + 1, Word(status * 0x1_0000_0000 + kind), Word(position), clock, 1, who, Generation(who), 2,
      5, number, 1,
     thing, 1, 1, rights, 0]
  }

  /** One row more, if a journal is kept. */
  function Note(w: World, kind: u64, status: u64, clock: u64, who: u64, number: u64, thing: u64, rights: u64): World {
    if w.log.None? then w
    else
      var log := w.log.value;
      w.(log := Some(log.(rows := log.rows + [Row(|log.rows| + 1, kind, status, clock, who, number, thing, rights)])))
  }

  function Survey(w: World, me: u64, handle: u64, zero: u64, zero': u64): World {
    if w.log.None? then Tell(w, me, MALFORMED, 0)
    else
      var refusal := Refusal(w, me, handle, Book, MayRead);
      var n := |w.log.value.rows|;
      if zero != 0 || zero' != 0 then Tell4(w, me, MALFORMED, 0, 0, 0)
      else if refusal != OK then Tell4(w, me, refusal, 0, 0, 0)
      else Tell4(w, me, OK, if n == 0 then 0 else 1, Word(n + 1), Word(n))
  }

  function WordAt(row: seq<u64>, i: nat): u64 {
    if i < |row| then row[i] else 0
  }

  /** Three words of a row, the sixth third padded with zeros. */
  function Read(w: World, me: u64, handle: u64, position: u64, third: u64): World {
    if w.log.None? then Tell(w, me, MALFORMED, 0)
    else
      var refusal := Refusal(w, me, handle, Book, MayRead);
      var rows := w.log.value.rows;
      if refusal != OK then Tell4(w, me, refusal, 0, 0, 0)
      else if third > 5 || position == 0 || position > |rows| then Tell4(w, me, NO_RECORD, 0, 0, 0)
      else
        var row := rows[position - 1];
        Tell4(w, me, OK, WordAt(row, 3 * third), WordAt(row, 3 * third + 1), WordAt(row, 3 * third + 2))
  }

  // Leaving ----------------------------------------------------------------------------------------

  /** The request still open is closed by the system, and the journal with it. */
  function CloseBook(w: World): World {
    if w.log.None? || w.log.value.closed then w
    else
      var noted :=
        if w.desk.None? || w.desk.value.ask.None? then w
        else
          var ask := w.desk.value.ask.value;
          if ask.approved then Note(w, 4, EXPIRED, Tick(w), 0, ask.number, 3, 0)
          else Note(w, 3, DENIED, Tick(w), 0, ask.number, 3, 0);
      noted.(log := Some(noted.log.value.(closed := true)))
  }

  /** The program is gone; whoever waits for it is told, and what was its own goes with it. */
  function Depart(w: World, me: u64): World {
    var without := Put(CloseBook(w), me, Gone);
    if !w.supervised then
      if me == 2 then without.(mailbox := None)
      else if w.second.Present? && w.second.mood == AwaitsMessage then Wake(without, PEER_GONE, 0)
      else without
    else if me == 2 then without
    else
      var closed := without.(desk := None, deed := None);
      if w.desk.None? || w.desk.value.ask.None? then closed
      else if w.desk.value.ask.value.approved then Wake(closed, EXPIRED, 0)
      else Wake(closed, DENIED, 0)
  }

  // Steps and runs ---------------------------------------------------------------------------------

  /** What the program on the processor asks for in its registers. */
  function Act(w: World, me: u64): World
    requires At(w, me).Present? && |At(w, me).names| == 16
  {
    var i := At(w, me).registers;
    match i.rax
    case 0 => Yield(w, me, i)
    case 1 => Send(w, me, i.rdi, i.rsi, i.rdx)
    case 2 => Receive(w, me, i.rdi, i.rsi, i.rdx)
    case 3 => if i.rdi != 0 || i.rsi != 0 || i.rdx != 0 then Tell(w, me, MALFORMED, 0) else Next(Depart(w, me))
    case 4 => Duplicate(w, me, i.rdi, i.rsi, i.rdx)
    case 5 => Close(w, me, i.rdi, i.rsi, i.rdx)
    case 6 => Start(w, me, i.rdi, i.rsi, i.rdx)
    case 7 => Submit(w, me, i.rdi, i.rsi, i.rdx)
    case 8 => Inspect(w, me, i.rdi, i.rsi, i.rdx)
    case 9 => Decide(w, me, i.rdi, i.rsi, i.rdx)
    case 10 => Commit(w, me, i.rdi, i.rsi, i.rdx)
    case 11 => Survey(w, me, i.rdi, i.rsi, i.rdx)
    case 12 => Read(w, me, i.rdi, i.rsi, i.rdx)
    case _ => Tell(w, me, MALFORMED, 0)
  }

  /** The program on the processor traps with these registers. */
  function Step(w: World, frame: Registers): World {
    if !w.turn.Of? then w
    else
      var shown := Show(w, w.turn.task, frame);
      match At(shown, w.turn.task)
      case Gone => w
      case Present(_, _, _, names) => if |names| == 16 then Act(shown, w.turn.task) else w
  }

  function Run(w: World, frames: seq<Registers>): World
    decreases |frames|
  {
    if frames == [] then w else Step(Run(w, frames[..|frames| - 1]), frames[|frames| - 1])
  }

  // Beginnings -------------------------------------------------------------------------------------

  const FRESH_NAMES: seq<u64> := [16, 17, 18, 19, 20, 21, 22, 23, 24, 25, 26, 27, 28, 29, 30, 31]

  /** The second program runs first; the first may send and copy its handle, the second may receive. */
  function Cooperating(first: Registers, second: Registers): World {
    World(false, Of(2),
          Present(Waiting, first, map[16 := Power(Mail, {MaySend, MayDuplicate})], FRESH_NAMES),
          Present(Busy, second, map[16 := Power(Mail, {MayReceive})], FRESH_NAMES),
          [1], None, None, None, None)
  }

  /** The first program runs alone; the second is staged and holds nothing. */
  function Supervising(first: Registers, second: Registers, journaled: bool): World {
    var powers := map[16 := Power(Control, {MayStart}), 17 := Power(Desk, {MayDecide}),
      18 := Power(Effect, {MayCommit})];
    World(true, Of(1),
          Present(Busy, first, if journaled then powers[19 := Power(Book, {MayRead})] else powers, FRESH_NAMES),
          Present(Staged, second, map[], FRESH_NAMES),
          [], None, Some(ApprovalDesk(0, 1, None)), None, if journaled then Some(Log([], false)) else None)
  }
}
