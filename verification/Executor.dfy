/** exec.as: the interpreter of command files, byte after byte, and that it does what `Perform` says the commands do: it
    never loses the record boundaries, whatever is skipped. */
module Executor {
  import opened Bytes
  import opened CommandFile

  /** The table of routines, one for each command. Its length as the source takes it is in bytes. */
  datatype Routine = DoExit | DoExec | DoIgnErr | DoDefErr | DoSkpErr | DoTrap | DoIfErr | DoIfNerr | DoEcho | DoPrint | DoRm | DoRmExit

  const CTABLE: seq<Routine> :=
    [DoExit, DoExec, DoIgnErr, DoDefErr, DoSkpErr, DoTrap, DoIfErr, DoIfNerr, DoEcho, DoPrint, DoRm, DoRmExit]

  const NCMDS := 2 * |CTABLE|

  /** The range test on a command byte. */
  predicate PassesTest(cmd: byte) {
    0x80 <= cmd && cmd - 0x80 < NCMDS
  }

  predicate HasEntry(cmd: byte) {
    0x80 <= cmd && cmd - 0x80 < |CTABLE|
  }

  /** Twice as many command bytes pass as there are entries; a byte has an entry exactly if some command has that code. */
  lemma TestExact(cmd: byte)
    ensures PassesTest(cmd) <==> 0x80 <= cmd < 0x98
    ensures HasEntry(cmd) <==> 0x80 <= cmd <= 0x8B
    ensures HasEntry(cmd) <==> exists c: Command :: Code(c) == cmd
  {
    if HasEntry(cmd) {
      var none: name := seq(16, _ => 0x20);
      var cs := [Exit, Exec(0, none, [], []), IgnErr, DefErr, SkpErr, Trap, IfErr, IfNerr, Echo, Print([]), RmFile(none), RmExit(none)];
      assert Code(cs[cmd - 0x80]) == cmd;
    }
  }

  /** The test accepts what it should exactly for the bytes outside the second half of its range, such as 0x8C. */
  lemma TestRight(cmd: byte)
    ensures (PassesTest(cmd) <==> HasEntry(cmd)) <==> !(0x8C <= cmd < 0x98)
    ensures PassesTest(0x8C) && !HasEntry(0x8C)
  {
    TestExact(cmd);
  }

  /** Zero-length requests read 256 bytes: the count goes through zero. */
  function Request(b: byte): nat {
    if b == 0 then 256 else b
  }

  /** The end of the last sector of the file. */
  ghost predicate Padding(s: seq<byte>) {
    forall i :: 0 <= i < |s| ==> s[i] == 0x1A
  }

  /** The bytes are those of the commands, and padding. */
  ghost predicate Holds(s: seq<byte>, cs: seq<Command>) {
    AllEncodable(cs) && exists pad :: Padding(pad) && s == Stream(cs) + pad
  }

  lemma HoldsFirst(s: seq<byte>, cs: seq<Command>)
    requires Holds(s, cs) && cs != []
    ensures Encodable(cs[0]) && 2 + |Body(cs[0])| <= |s| && s[0] == Code(cs[0]) && s[1] == |Body(cs[0])|
    ensures s[2..2 + |Body(cs[0])|] == Body(cs[0]) && Holds(s[2 + |Body(cs[0])|..], cs[1..])
  {
    var pad :| Padding(pad) && s == Stream(cs) + pad;
    var n := 2 + |Body(cs[0])|;
    assert s == Encode(cs[0]) + (Stream(cs[1..]) + pad);
    assert s[n..] == Stream(cs[1..]) + pad;
  }

  lemma HoldsNone(s: seq<byte>)
    requires Holds(s, [])
    ensures Padding(s)
  {
    var pad :| Padding(pad) && s == Stream([]) + pad;
    assert s == pad;
  }

  lemma PaddingHolds(s: seq<byte>, k: nat)
    requires Padding(s) && k <= |s|
    ensures Holds(s[k..], [])
  {
    assert Padding(s[k..]);
    assert s[k..] == Stream([]) + s[k..];
  }

  class Interpreter {
    const file: seq<byte>
    var cptr: nat
    var errors: bool
    var erract: nat           // 0: exit, 1: go on, 2: skip to the next trap
    var echflg: bool
    var failed: bool          // the word at DBUF is not zero: the last program's status
    var count: nat            // programs run so far
    var events: seq<Event>    // what has been done

    constructor (file: seq<byte>)
      ensures this.file == file && cptr == 0 && !errors && erract == 0 && !failed && count == 0 && events == []
    {
      this.file, cptr, errors, erract, echflg, failed, count, events := file, 0, false, 0, false, false, 0, [];
    }

    ghost predicate Ahead(cs: seq<Command>)
      reads this
    {
      cptr <= |file| && Holds(file[cptr..], cs)
    }

    function State(): State
      reads this
    {
      CommandFile.State.State(errors, if erract == 0 then Default else if erract == 1 then Ignore else Skip)
    }

    method Getch() returns (ok: bool, b: byte)
      requires cptr <= |file|
      modifies this`cptr
      ensures ok <==> old(cptr) < |file|
      ensures old(cptr) <= cptr <= |file| && (ok ==> b == file[old(cptr)] && cptr == old(cptr) + 1)
    {
      if cptr == |file| {
        return false, 0;
      }
      ok, b := true, file[cptr];
      cptr := cptr + 1;
    }

    method Rdbytes(n: nat) returns (ok: bool, s: seq<byte>)
      requires cptr <= |file|
      modifies this`cptr
      ensures ok <==> old(cptr) + n <= |file|
      ensures old(cptr) <= cptr <= |file| && (ok ==> s == file[old(cptr)..old(cptr) + n] && cptr == old(cptr) + n)
    {
      s, ok := [], true;
      var i := 0;
      while i < n
        invariant 0 <= i <= n && ok && cptr == old(cptr) + i <= |file| && s == file[old(cptr)..cptr]
      {
        var b;
        ok, b := Getch();
        if !ok {
          return;
        }
        s := s + [b];
        i := i + 1;
      }
    }

    /** skip: a record is read and passed over. */
    method SkipRecord(ghost cs: seq<Command>) returns (ok: bool, cmd: byte)
      requires Ahead(cs)
      modifies this`cptr
      ensures cs != [] ==> ok && cmd == Code(cs[0])
      ensures ok ==> Ahead(Rest(cs)) && cptr > old(cptr) && (cs == [] ==> cmd == 0x1A)
      ensures cptr >= old(cptr)
    {
      hide Holds, Encodable;
      ghost var s, start := file[cptr..], cptr;
      if cs == [] { HoldsNone(s); } else { HoldsFirst(s, cs); }
      ok, cmd := Getch();
      if !ok {
        return;
      }
      var len;
      ok, len := Getch();
      if !ok {
        return;
      }
      assert len == s[1] && cmd == s[0];
      if len != 0 {
        var skipped;
        ok, skipped := Rdbytes(len);
        if !ok {
          return;
        }
      }
      assert file[cptr..] == s[2 + len..];
      if cs == [] { PaddingHolds(s, 2 + len); }
    }

    /** skipto: up to the next trap; an EXIT on the way, or the end of the file, is the end. */
    method Skipto(ghost cs: seq<Command>) returns (ok: bool)
      requires Ahead(cs)
      modifies this`cptr
      ensures match ToTrap(cs)
        case None => !ok
        case Some(k) => ok && Ahead(cs[k..])
      ensures cptr >= old(cptr)
    {
      hide Ahead, Encodable, Rest;
      ghost var left, k := cs, 0;
      InFile(cs);
      while true
        invariant old(cptr) <= cptr <= |file| && Ahead(left) && k <= |cs| && left == cs[k..]
        invariant ToTrap(cs) == (match ToTrap(left) case None => None case Some(j) => Some(k + j))
        decreases |file| - cptr
      {
        var cmd;
        ok, cmd := SkipRecord(left);
        RestOf(left);
        if !ok || cmd == 0x80 {
          return false;
        }
        InFile(Rest(left));
        if left != [] {
          k := k + 1;
        }
        left := Rest(left);
        if cmd == 0x85 {
          return true;
        }
      }
    }

    lemma InFile(cs: seq<Command>)
      requires Ahead(cs)
      ensures cptr <= |file|
    {
    }

    /** Command byte and length of the first of `cs` have been read. */
    ghost predicate InRecord(cs: seq<Command>)
      reads this
    {
      && cs != [] && Encodable(cs[0]) && cptr + |Body(cs[0])| <= |file|
      && file[cptr..cptr + |Body(cs[0])|] == Body(cs[0]) && Holds(file[cptr + |Body(cs[0])|..], cs[1..])
    }

    /** doexec. The program runs and comes back with its status. */
    method Doexec(fails: nat -> bool, ghost cs: seq<Command>) returns (ok: bool)
      requires InRecord(cs) && cs[0].Exec?
      modifies this`cptr, this`events, this`failed, this`count
      ensures ok && Ahead(cs[1..]) && cptr >= old(cptr)
      ensures failed == fails(old(count)) && count == old(count) + 1 && events == old(events) + [Ran(cs[0], failed)]
    {
      ghost var b, start := Body(cs[0]), cptr;
      BodyParts(cs[0]);
      hide Holds, Encodable, Body, AllEncodable, Stream;
      var uid, program, fcbs, len, tail;
      ok, uid := Getch();
      assert uid == file[start..start + |b|][0];
      ok, program := Rdbytes(16);
      Within(start, |b|, 1, 17);
      ok, fcbs := Rdbytes(32);
      Within(start, |b|, 17, 49);
      ok, len := Getch();
      assert len == file[start..start + |b|][49];
      ok, tail := Rdbytes(Request(len));
      Within(start, |b|, 50, |b|);
      failed := fails(count);
      count := count + 1;
      events := events + [Ran(Exec(uid, program, fcbs, tail), failed)];
    }

    lemma Within(start: nat, n: nat, i: nat, j: nat)
      requires i <= j <= n && start + n <= |file|
      ensures file[start..start + n][i..j] == file[start + i..start + j]
    {
      var whole := file[start..start + n];
      assert forall k :: 0 <= k < j - i ==> whole[i..j][k] == file[start + i..start + j][k];
    }

    lemma BodyParts(c: Command)
      requires Encodable(c) && c.Exec?
      ensures |Body(c)| == 50 + |c.tail| && 0 < |c.tail| < 256
      ensures Body(c)[0] == c.uid && Body(c)[1..17] == c.program && Body(c)[17..49] == c.fcbs
      ensures Body(c)[49] == |c.tail| && Body(c)[50..] == c.tail
    {
      var b := Body(c);
      assert b[1..17] == c.program && b[17..49] == c.fcbs && b[50..] == c.tail;
    }

    /** rm. */
    method Rm(ghost cs: seq<Command>) returns (ok: bool)
      requires InRecord(cs) && (cs[0].RmFile? || cs[0].RmExit?)
      modifies this`cptr, this`events
      ensures ok && Ahead(cs[1..]) && cptr >= old(cptr) && events == old(events) + [Removed(cs[0].file)]
    {
      hide Holds;
      var file;
      ok, file := Rdbytes(16);
      events := events + [Removed(file)];
    }

    /** xprint. */
    method Xprint(length: byte, ghost cs: seq<Command>) returns (ok: bool)
      requires InRecord(cs) && cs[0].Print? && length == |Body(cs[0])|
      modifies this`cptr, this`events
      ensures ok && Ahead(cs[1..]) && cptr >= old(cptr) && events == old(events) + [Printed(cs[0].text)]
    {
      hide Holds;
      var text;
      ok, text := Rdbytes(Request(length));
      events := events + [Printed(text)];
    }

    /** The command byte and the length, and the search in the table. */
    method Command(ghost cs: seq<Command>) returns (ok: bool, cmd: byte, length: byte)
      requires Ahead(cs)
      modifies this`cptr
      ensures cptr <= |file| && (ok ==> cs != [] && cmd == Code(cs[0]) && length == |Body(cs[0])| && InRecord(cs))
      ensures ok ==> cptr > old(cptr)
      ensures !ok ==> cs == []
    {
      hide Holds, Encodable;
      ghost var s := file[cptr..];
      if cs == [] { HoldsNone(s); } else { HoldsFirst(s, cs); }
      length := 0;
      ok, cmd := Getch();
      if !ok {
        return;
      }
      assert cmd == s[0];
      if cmd < 0x80 || cmd - 0x80 >= NCMDS {
        return false, cmd, 0;
      }
      ok, length := Getch();
      if ok && cs != [] {
        assert length == s[1];
        assert file[cptr..cptr + length] == s[2..2 + length];
        assert file[cptr + length..] == s[2 + length..];
      }
    }

    /** docmd, and the routine it dispatches to. The end of the file ends everything. */
    method Docmd(fails: nat -> bool, ghost cs: seq<Command>) returns (going: bool, ghost left: seq<Command>)
      requires Ahead(cs) && !failed && erract <= 2
      modifies this
      ensures erract <= 2 && (going ==> Ahead(left) && cptr > old(cptr))
      ensures !going ==> events == old(events) + Perform(cs, old(State()), old(count), fails)
      ensures going ==>
        events + Onwards(left, State(), count, fails, failed) == old(events) + Perform(cs, old(State()), old(count), fails)
    {
      hide Encodable, ToTrap, AllEncodable, Stream, Body, Holds, InRecord;
      left := cs;
      ghost var was, st, n := events, State(), count;
      var ok, cmd, length := Command(cs);
      if !ok {
        events := events + [Exited];
        return false, left;
      }
      ghost var c := cs[0];
      left := cs[1..];
      if cmd == 0x80 {
        events := events + [Exited];
        return false, left;
      } else if cmd == 0x81 {
        ok := Doexec(fails, cs);
        AfterExec(cs, st, n, fails, was);
        return true, left;
      }
      if cmd == 0x89 {
        ok := Xprint(length, cs);
        assert was + ([Printed(c.text)] + Perform(left, st, n, fails)) == events + Perform(left, st, n, fails);
        return true, left;
      }
      if cmd == 0x8A || cmd == 0x8B {
        ok := Rm(cs);
        if cmd == 0x8A {
          assert was + ([Removed(c.file)] + Perform(left, st, n, fails)) == events + Perform(left, st, n, fails);
          return true, left;
        }
        events := events + [Exited];
        assert was + [Removed(c.file), Exited] == events;
        return false, left;
      }
      NoBody(cs);
      if cmd == 0x82 {
        erract := 1;
      } else if cmd == 0x83 {
        erract := 0;
      } else if cmd == 0x84 {
        erract := 2;
      } else if cmd == 0x88 {
        echflg := true;
      } else if (cmd == 0x86 && !errors) || (cmd == 0x87 && errors) {
        var skipped;
        ok, skipped := SkipRecord(left);
        if !ok {
          events := events + [Exited];
          return false, left;
        }
        left := Rest(left);
      }
      going := true;
    }

    /** After a command without a body the next record is ahead. */
    lemma NoBody(cs: seq<Command>)
      requires InRecord(cs) && !cs[0].Exec? && !cs[0].Print? && !cs[0].RmFile? && !cs[0].RmExit?
      ensures Ahead(cs[1..])
    {
      hide Holds;
    }
  }

  /** What is to come when the last program may have failed: the beginning of the main loop. */
  function Onwards(cs: seq<Command>, s: State, n: nat, fails: nat -> bool, failed: bool): seq<Event> {
    if !failed then Perform(cs, s, n, fails)
    else match s.act
      case Default => [Exited]
      case Ignore => Perform(cs, s.(errors := true), n, fails)
      case Skip =>
        match ToTrap(cs)
        case None => [Exited]
        case Some(k) => Perform(cs[k..], s.(errors := true), n, fails)
  }

  lemma AfterExec(cs: seq<Command>, s: State, n: nat, fails: nat -> bool, was: seq<Event>)
    requires cs != [] && cs[0].Exec?
    ensures was + Perform(cs, s, n, fails) == was + [Ran(cs[0], fails(n))] + Onwards(cs[1..], s, n + 1, fails, fails(n))
  {
  }

  lemma RestOf(cs: seq<Command>)
    ensures cs != [] ==> Rest(cs) == cs[1..] && (Code(cs[0]) == 0x80 <==> cs[0] == Exit) && (Code(cs[0]) == 0x85 <==> cs[0] == Trap)
    ensures cs == [] ==> Rest(cs) == []
  {
  }

  /** exec: everything the commands say is done, and nothing else. */
  method Execute(file: seq<byte>, fails: nat -> bool, ghost cs: seq<Command>) returns (events: seq<Event>)
    requires Holds(file, cs)
    ensures events == Perform(cs, CommandFile.State.State(false, Default), 0, fails)
  {
    hide Holds, Perform, Onwards, ToTrap;
    var m := new Interpreter(file);
    assert file[0..] == file;
    ghost var left, all := cs, Perform(cs, CommandFile.State.State(false, Default), 0, fails);
    Settled(left, m.State(), 0, fails);
    while true
      invariant fresh(m) && m.file == file && m.erract <= 2 && m.Ahead(left) && m.cptr <= |file|
      invariant m.events + Onwards(left, m.State(), m.count, fails, m.failed) == all
      decreases |file| - m.cptr
    {
      ghost var start := m.cptr;
      Pending(left, m.State(), m.count, fails);
      if m.failed {
        m.errors := true;
        if m.erract == 0 {
          return m.events + [Exited];
        }
        if m.erract == 2 {
          var ok := m.Skipto(left);
          if !ok {
            return m.events + [Exited];
          }
          left := left[ToTrap(left).value..];
        }
      }
      m.failed := false;
      var going, more := m.Docmd(fails, left);
      if !going {
        return m.events;
      }
      left := more;
    }
  }

  lemma Settled(cs: seq<Command>, s: State, n: nat, fails: nat -> bool)
    ensures Onwards(cs, s, n, fails, false) == Perform(cs, s, n, fails)
  {
  }

  lemma Pending(cs: seq<Command>, s: State, n: nat, fails: nat -> bool)
    ensures Onwards(cs, s, n, fails, false) == Perform(cs, s, n, fails)
    ensures s.act == Default ==> Onwards(cs, s, n, fails, true) == [Exited]
    ensures s.act == Ignore ==> Onwards(cs, s, n, fails, true) == Perform(cs, State.State(true, Ignore), n, fails)
    ensures s.act == Skip && ToTrap(cs) == None ==> Onwards(cs, s, n, fails, true) == [Exited]
    ensures s.act == Skip && ToTrap(cs).Some? ==>
      Onwards(cs, s, n, fails, true) == Perform(cs[ToTrap(cs).value..], State.State(true, Skip), n, fails)
  {
  }
}
