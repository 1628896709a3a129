/** Command files: what ec.c writes for exec.as to carry out. `Perform` says what comes of a list of commands for any
    pattern of failures of the programs it runs. */
module CommandFile {
  import opened Bytes

  /** A file name as it stands in a file control block, with drive and type. */
  type name = s: seq<byte> | |s| == 16 witness seq(16, _ => 0x20)

  datatype Command =
    | Exit
    | Exec(uid: byte, program: name, fcbs: seq<byte>, tail: seq<byte>)
    | IgnErr | DefErr | SkpErr
    | Trap
    | IfErr | IfNerr
    | Echo
    | Print(text: seq<byte>)
    | RmFile(file: name)
    | RmExit(file: name)

  /** What a record can hold: its length is one byte, and neither text nor command line may be empty, as a count of 0
      is taken for 256 by the reading loop. */
  predicate Encodable(c: Command) {
    match c
    case Exec(_, _, fcbs, tail) => |fcbs| == 32 && 0 < |tail| <= 205
    case Print(text) => 0 < |text| <= 255
    case _ => true
  }

  function Code(c: Command): byte {
    match c
    case Exit => 0x80
    case Exec(_, _, _, _) => 0x81
    case IgnErr => 0x82
    case DefErr => 0x83
    case SkpErr => 0x84
    case Trap => 0x85
    case IfErr => 0x86
    case IfNerr => 0x87
    case Echo => 0x88
    case Print(_) => 0x89
    case RmFile(_) => 0x8A
    case RmExit(_) => 0x8B
  }

  function Body(c: Command): (s: seq<byte>)
    requires Encodable(c)
    ensures |s| <= 255
  {
    match c
    case Exec(uid, program, fcbs, tail) => [uid] + program + fcbs + [|tail|] + tail
    case Print(text) => text
    case RmFile(file) => file
    case RmExit(file) => file
    case _ => []
  }

  /** A record: command, length, and that many bytes. */
  function Encode(c: Command): (s: seq<byte>)
    requires Encodable(c)
    ensures |s| == 2 + |Body(c)|
  {
    [Code(c), |Body(c)|] + Body(c)
  }

  ghost predicate AllEncodable(cs: seq<Command>) {
    forall i :: 0 <= i < |cs| ==> Encodable(cs[i])
  }

  function Stream(cs: seq<Command>): seq<byte>
    requires AllEncodable(cs)
  {
    if cs == [] then [] else Encode(cs[0]) + Stream(cs[1..])
  }

  lemma {:induction false} StreamSum(a: seq<Command>, b: seq<Command>)
    requires AllEncodable(a) && AllEncodable(b)
    ensures AllEncodable(a + b) && Stream(a + b) == Stream(a) + Stream(b)
  {
    hide Encode, Encodable;
    if a == [] {
      assert a + b == b;
    } else {
      StreamSum(a[1..], b);
      assert (a + b)[1..] == a[1..] + b;
    }
  }

  // ---------------------------------------------------------------- what commands do

  datatype Event = Ran(cmd: Command, failed: bool) | Printed(text: seq<byte>) | Removed(file: name) | Exited

  datatype Action = Default | Ignore | Skip

  /** Whether a program has failed so far, and what to do when one does. */
  datatype State = State(errors: bool, act: Action)

  /** How many of `cs` the search for a trap passes over, the trap included. None if it meets an EXIT or the end. */
  function ToTrap(cs: seq<Command>): (k: Option<nat>)
    ensures k.Some? ==> 0 < k.value <= |cs| && cs[k.value - 1] == Trap
  {
    if cs == [] || cs[0] == Exit then None
    else if cs[0] == Trap then Some(1)
    else match ToTrap(cs[1..]) case None => None case Some(k) => Some(k + 1)
  }

  /** The commands left when one is passed over. */
  function Rest(cs: seq<Command>): seq<Command> {
    if cs == [] then [] else cs[1..]
  }

  /** What happens from here on; `fails(n)` says whether the n-th program run fails. */
  function Perform(cs: seq<Command>, s: State, n: nat, fails: nat -> bool): seq<Event>
    decreases |cs|
  {
    if cs == [] then [Exited] else
    var more := cs[1..];
    match cs[0]
    case Exit => [Exited]
    case Exec(_, _, _, _) =>
      [Ran(cs[0], fails(n))] +
      (if !fails(n) then Perform(more, s, n + 1, fails)
       else match s.act
         case Default => [Exited]
         case Ignore => Perform(more, s.(errors := true), n + 1, fails)
         case Skip =>
           match ToTrap(more)
           case None => [Exited]
           case Some(k) => Perform(more[k..], s.(errors := true), n + 1, fails))
    case IgnErr => Perform(more, s.(act := Ignore), n, fails)
    case DefErr => Perform(more, s.(act := Default), n, fails)
    case SkpErr => Perform(more, s.(act := Skip), n, fails)
    case IfErr => Perform(if s.errors then more else Rest(more), s, n, fails)
    case IfNerr => Perform(if s.errors then Rest(more) else more, s, n, fails)
    case Print(text) => [Printed(text)] + Perform(more, s, n, fails)
    case RmFile(file) => [Removed(file)] + Perform(more, s, n, fails)
    case RmExit(file) => [Removed(file), Exited]
    case _ => Perform(more, s, n, fails)
  }

  // ---------------------------------------------------------------- sections between traps

  predicate Plain(c: Command) {
    c.Exec? || c.Print? || c.RmFile?
  }

  ghost predicate Section(cs: seq<Command>) {
    forall i :: 0 <= i < |cs| ==> Plain(cs[i])
  }

  /** A section runs up to its first failure. */
  function SectionEvents(cs: seq<Command>, n: nat, fails: nat -> bool): seq<Event> {
    if cs == [] then [] else
    match cs[0]
    case Exec(_, _, _, _) =>
      [Ran(cs[0], fails(n))] + (if fails(n) then [] else SectionEvents(cs[1..], n + 1, fails))
    case Print(text) => [Printed(text)] + SectionEvents(cs[1..], n, fails)
    case RmFile(file) => [Removed(file)] + SectionEvents(cs[1..], n, fails)
    case _ => SectionEvents(cs[1..], n, fails)
  }

  /** The number of programs run. */
  function Runs(es: seq<Event>): nat {
    if es == [] then 0 else (if es[0].Ran? then 1 else 0) + Runs(es[1..])
  }

  predicate AnyFailed(es: seq<Event>) {
    es != [] && ((es[0].Ran? && es[0].failed) || AnyFailed(es[1..]))
  }

  lemma {:induction false} RunsSum(a: seq<Event>, b: seq<Event>)
    ensures Runs(a + b) == Runs(a) + Runs(b) && (AnyFailed(a + b) <==> AnyFailed(a) || AnyFailed(b))
  {
    if a == [] {
      assert a + b == b;
    } else {
      RunsSum(a[1..], b);
      assert (a + b)[1..] == a[1..] + b;
    }
  }

  lemma EventFirst(e: Event, es: seq<Event>)
    ensures Runs([e] + es) == (if e.Ran? then 1 else 0) + Runs(es)
    ensures AnyFailed([e] + es) <==> (e.Ran? && e.failed) || AnyFailed(es)
  {
    assert ([e] + es)[1..] == es;
  }

  lemma {:induction false} TrapAhead(cs: seq<Command>, more: seq<Command>)
    requires Trap !in cs && Exit !in cs
    ensures ToTrap(cs + [Trap] + more) == Some(|cs| + 1)
  {
    if cs == [] {
      assert cs + [Trap] + more == [Trap] + more;
    } else {
      TrapAhead(cs[1..], more);
      assert (cs + [Trap] + more)[1..] == cs[1..] + [Trap] + more;
    }
  }

  function EventOf(c: Command, failed: bool): Event
    requires Plain(c)
  {
    match c
    case Exec(_, _, _, _) => Ran(c, failed)
    case Print(text) => Printed(text)
    case RmFile(file) => Removed(file)
  }

  function Count(c: Command): nat {
    if c.Exec? then 1 else 0
  }

  /** One command, if it does not fail. */
  lemma PlainStep(cs: seq<Command>, s: State, n: nat, fails: nat -> bool)
    requires cs != [] && Plain(cs[0]) && !(cs[0].Exec? && fails(n))
    ensures Perform(cs, s, n, fails) == [EventOf(cs[0], false)] + Perform(cs[1..], s, n + Count(cs[0]), fails)
    ensures SectionEvents(cs, n, fails) == [EventOf(cs[0], false)] + SectionEvents(cs[1..], n + Count(cs[0]), fails)
  {
  }

  /** One that does. */
  lemma FailStep(cs: seq<Command>, s: State, n: nat, fails: nat -> bool, k: nat)
    requires cs != [] && cs[0].Exec? && fails(n) && s.act == Skip && ToTrap(cs[1..]) == Some(k)
    ensures Perform(cs, s, n, fails) == [Ran(cs[0], true)] + Perform(cs[1..][k..], State(true, Skip), n + 1, fails)
    ensures SectionEvents(cs, n, fails) == [Ran(cs[0], true)]
  {
  }

  lemma TrapStep(more: seq<Command>, s: State, n: nat, fails: nat -> bool)
    ensures Perform([Trap] + more, s, n, fails) == Perform(more, s, n, fails)
  {
    assert ([Trap] + more)[1..] == more;
  }

  /** A section that ends in a trap runs as far as it goes, and what is after the trap is then performed in any case. */
  lemma {:induction false} SectionRuns(cs: seq<Command>, more: seq<Command>, s: State, n: nat, fails: nat -> bool)
    requires Section(cs) && s.act == Skip
    ensures var es := SectionEvents(cs, n, fails);
      Perform(cs + [Trap] + more, s, n, fails)
      == es + Perform(more, State(s.errors || AnyFailed(es), Skip), n + Runs(es), fails)
  {
    hide Perform, SectionEvents, Runs, AnyFailed, ToTrap;
    var all := cs + [Trap] + more;
    if cs == [] {
      assert all == [Trap] + more;
      TrapStep(more, s, n, fails);
      NoEvents(n, fails);
      assert s == State(s.errors, Skip);
    } else {
      var later := cs[1..];
      assert all[1..] == later + [Trap] + more && all[0] == cs[0];
      if cs[0].Exec? && fails(n) {
        TrapAhead(later, more);
        FailStep(all, s, n, fails, |later| + 1);
        NoTrap(cs, n, fails);
        assert all[1..][|later| + 1..] == more;
        OneEvent(Ran(cs[0], true));
      } else {
        PlainStep(all, s, n, fails);
        PlainStep(cs, s, n, fails);
        SectionRuns(later, more, s, n + Count(cs[0]), fails);
        EventFirst(EventOf(cs[0], false), SectionEvents(later, n + Count(cs[0]), fails));
      }
    }
  }

  lemma NoEvents(n: nat, fails: nat -> bool)
    ensures SectionEvents([], n, fails) == [] && Runs([]) == 0 && !AnyFailed([])
  {
  }

  lemma OneEvent(e: Event)
    ensures Runs([e]) == (if e.Ran? then 1 else 0) && (AnyFailed([e]) <==> e.Ran? && e.failed)
  {
    EventFirst(e, []);
    assert [e] + [] == [e];
  }

  lemma NoTrap(cs: seq<Command>, n: nat, fails: nat -> bool)
    requires cs != [] && cs[0].Exec? && fails(n)
    ensures SectionEvents(cs, n, fails) == [Ran(cs[0], true)]
  {
  }

  // ---------------------------------------------------------------- several sections

  function Joined(sections: seq<seq<Command>>): seq<Command> {
    if sections == [] then [] else sections[0] + [Trap] + Joined(sections[1..])
  }

  function SectionsEvents(sections: seq<seq<Command>>, n: nat, fails: nat -> bool): seq<Event> {
    if sections == [] then [] else
    var es := SectionEvents(sections[0], n, fails);
    es + SectionsEvents(sections[1..], n + Runs(es), fails)
  }

  ghost predicate AllSections(sections: seq<seq<Command>>) {
    forall i :: 0 <= i < |sections| ==> Section(sections[i])
  }

  /** Every section is run, whatever became of the ones before. */
  lemma {:induction false} SectionsRun(sections: seq<seq<Command>>, more: seq<Command>, s: State, n: nat, fails: nat -> bool)
    requires AllSections(sections) && s.act == Skip
    ensures var es := SectionsEvents(sections, n, fails);
      Perform(Joined(sections) + more, s, n, fails)
      == es + Perform(more, State(s.errors || AnyFailed(es), Skip), n + Runs(es), fails)
  {
    hide Perform, SectionEvents, Section;
    if sections == [] {
      assert Joined(sections) + more == more;
      assert s == State(s.errors, Skip);
    } else {
      hide Runs, AnyFailed;
      var later := sections[1..];
      var e := SectionEvents(sections[0], n, fails);
      var e' := SectionsEvents(later, n + Runs(e), fails);
      assert Joined(sections) + more == sections[0] + [Trap] + (Joined(later) + more);
      SectionRuns(sections[0], Joined(later) + more, s, n, fails);
      SectionsRun(later, more, State(s.errors || AnyFailed(e), Skip), n + Runs(e), fails);
      RunsSum(e, e');
    }
  }

  /** The first program of a section. */
  function FirstProgram(cs: seq<Command>): Option<Command> {
    if cs == [] then None else if cs[0].Exec? then Some(cs[0]) else FirstProgram(cs[1..])
  }

  /** It is run. */
  lemma {:induction false} SectionStarts(cs: seq<Command>, n: nat, fails: nat -> bool)
    requires Section(cs) && FirstProgram(cs).Some?
    ensures Ran(FirstProgram(cs).value, fails(n)) in SectionEvents(cs, n, fails)
  {
    if !cs[0].Exec? { SectionStarts(cs[1..], n, fails); }
  }
}
