/** ec.c: the compiler driver, which writes the commands for a list of source files and the link step, and what comes of
    them for any pattern of failing programs. */
module Driver {
  import opened Bytes
  import opened CommandFile
  import opened Executor

  // ---------------------------------------------------------------- what a script does at its end

  predicate Tame(c: Command) {
    Plain(c) || c.Trap? || c.IfNerr? || c.IfErr? || c.Echo? || c.SkpErr?
  }

  predicate Quiet(c: Command) {
    c.Print? || c.RmFile?
  }

  ghost predicate AllTame(cs: seq<Command>) {
    forall i :: 0 <= i < |cs| ==> Tame(cs[i])
  }

  predicate AllQuiet(cs: seq<Command>) {
    forall i :: 0 <= i < |cs| ==> Quiet(cs[i])
  }

  ghost predicate EndsRemoving(es: seq<Event>, f: name) {
    |es| >= 2 && es[|es| - 2] == Removed(f) && es[|es| - 1] == Exited
  }

  lemma EndsLater(e: Event, es: seq<Event>, f: name)
    requires EndsRemoving(es, f)
    ensures EndsRemoving([e] + es, f)
  {
  }

  function QuietEvents(cs: seq<Command>): seq<Event>
    requires AllQuiet(cs)
  {
    if cs == [] then [] else
      assert Quiet(cs[0]);
      [EventOf(cs[0], false)] + QuietEvents(cs[1..])
  }

  /** Printing and removing goes on whatever has failed. */
  lemma {:induction false} QuietRuns(cs: seq<Command>, more: seq<Command>, s: State, n: nat, fails: nat -> bool)
    requires AllQuiet(cs)
    ensures Perform(cs + more, s, n, fails) == QuietEvents(cs) + Perform(more, s, n, fails)
  {
    hide Perform, SectionEvents;
    if cs == [] {
      assert cs + more == more;
    } else {
      assert (cs + more)[1..] == cs[1..] + more;
      PlainStep(cs + more, s, n, fails);
      QuietRuns(cs[1..], more, s, n, fails);
    }
  }

  function Closing(quiet: seq<Command>, f: name): seq<Command> {
    quiet + [RmExit(f)]
  }

  lemma ClosingEnds(quiet: seq<Command>, f: name, s: State, n: nat, fails: nat -> bool)
    requires AllQuiet(quiet)
    ensures EndsRemoving(Perform(Closing(quiet, f), s, n, fails), f)
  {
    QuietRuns(quiet, [RmExit(f)], s, n, fails);
  }

  /** The next trap leaves something shorter, that still ends in the same way. */
  lemma {:induction false} TrapWithin(body: seq<Command>, more: seq<Command>) returns (j: nat)
    requires AllTame(body)
    ensures ToTrap(body + [Trap] + more).Some? && j <= |body| + 1
    ensures j <= |body| ==> (body + [Trap] + more)[ToTrap(body + [Trap] + more).value..] == body[j..] + [Trap] + more
    ensures j == |body| + 1 ==> (body + [Trap] + more)[ToTrap(body + [Trap] + more).value..] == more
  {
    var all := body + [Trap] + more;
    if body == [] {
      assert all == [Trap] + more;
      j := 1;
    } else if body[0].Trap? {
      j := 1;
      assert all[1..] == body[1..] + [Trap] + more;
    } else {
      assert Tame(body[0]);
      var i := TrapWithin(body[1..], more);
      assert all[1..] == body[1..] + [Trap] + more;
      var k := ToTrap(all[1..]).value;
      assert all[k + 1..] == all[1..][k..];
      j := i + 1;
    }
  }

  /** A script whose programs all come before a trap ends by removing itself, whatever fails. */
  lemma {:induction false} AlwaysEnds(body: seq<Command>, quiet: seq<Command>, f: name, s: State, n: nat, fails: nat -> bool)
    requires AllTame(body) && AllQuiet(quiet) && s.act == Skip
    ensures EndsRemoving(Perform(body + [Trap] + Closing(quiet, f), s, n, fails), f)
    decreases |body|
  {
    hide Perform, ToTrap, SectionEvents, Closing, EndsRemoving, AllQuiet;
    var more := Closing(quiet, f);
    var all := body + [Trap] + more;
    if body == [] {
      assert all == [Trap] + more;
      TrapStep(more, s, n, fails);
      ClosingEnds(quiet, f, s, n, fails);
    } else {
      var later := body[1..];
      assert all[0] == body[0] && all[1..] == later + [Trap] + more;
      assert Tame(body[0]);
      if body[0].Exec? && fails(n) {
        var j := TrapWithin(later, more);
        var k := ToTrap(all[1..]).value;
        FailStep(all, s, n, fails, k);
        if j <= |later| {
          AlwaysEnds(later[j..], quiet, f, State(true, Skip), n + 1, fails);
        } else {
          ClosingEnds(quiet, f, State(true, Skip), n + 1, fails);
        }
        EndsLater(Ran(body[0], true), Perform(all[1..][k..], State(true, Skip), n + 1, fails), f);
      } else if Plain(body[0]) {
        PlainStep(all, s, n, fails);
        AlwaysEnds(later, quiet, f, s, n + Count(body[0]), fails);
        EndsLater(EventOf(body[0], false), Perform(all[1..], s, n + Count(body[0]), fails), f);
      } else {
        ControlStep(all, s, n, fails);
        AlwaysEnds(later, quiet, f, s, n, fails);
        if later == [] {
          assert all[1..][1..] == more;
          ClosingEnds(quiet, f, s, n, fails);
        } else {
          assert all[1..][1..] == later[1..] + [Trap] + more;
          AlwaysEnds(later[1..], quiet, f, s, n, fails);
        }
      }
    }
  }

  /** The other commands just go on, with or without the next one. */
  lemma ControlStep(cs: seq<Command>, s: State, n: nat, fails: nat -> bool)
    requires |cs| >= 2 && Tame(cs[0]) && !Plain(cs[0]) && s.act == Skip
    ensures Perform(cs, s, n, fails) == Perform(cs[1..], s, n, fails)
      || Perform(cs, s, n, fails) == Perform(cs[1..][1..], s, n, fails)
  {
    assert s.(act := Skip) == s;
  }

  /** A command under IF_NERR is performed if nothing has failed, and passed over otherwise. */
  lemma GuardedStep(c: Command, more: seq<Command>, s: State, n: nat, fails: nat -> bool)
    ensures Perform([IfNerr, c] + more, s, n, fails)
      == if s.errors then Perform(more, s, n, fails) else Perform([c] + more, s, n, fails)
  {
    var cs := [IfNerr, c] + more;
    assert cs[1..] == [c] + more;
    assert Rest(cs[1..]) == more;
  }

  // ---------------------------------------------------------------- the three ways to deal with a failure

  /** Everything is done, whatever fails. */
  function IgnoringEvents(cs: seq<Command>, n: nat, fails: nat -> bool): seq<Event>
    requires Section(cs)
  {
    if cs == [] then [] else
      assert Plain(cs[0]);
      [EventOf(cs[0], cs[0].Exec? && fails(n))] + IgnoringEvents(cs[1..], n + Count(cs[0]), fails)
  }

  lemma {:induction false} IgnoringRuns(cs: seq<Command>, more: seq<Command>, s: State, n: nat, fails: nat -> bool)
    requires Section(cs) && s.act == Ignore
    ensures var es := IgnoringEvents(cs, n, fails);
      Perform(cs + more, s, n, fails) == es + Perform(more, State(s.errors || AnyFailed(es), Ignore), n + Runs(es), fails)
  {
    hide SectionEvents, AnyFailed, Runs, Perform;
    NoEvents(n, fails);
    if cs == [] {
      assert cs + more == more;
      assert s == State(s.errors, Ignore);
    } else {
      assert Plain(cs[0]);
      var failed := cs[0].Exec? && fails(n);
      assert (cs + more)[1..] == cs[1..] + more;
      IgnoreStep(cs + more, s, n, fails);
      IgnoringRuns(cs[1..], more, State(s.errors || failed, Ignore), n + Count(cs[0]), fails);
      EventFirst(EventOf(cs[0], failed), IgnoringEvents(cs[1..], n + Count(cs[0]), fails));
    }
  }

  lemma IgnoreStep(cs: seq<Command>, s: State, n: nat, fails: nat -> bool)
    requires cs != [] && Plain(cs[0]) && s.act == Ignore
    ensures var failed := cs[0].Exec? && fails(n);
      Perform(cs, s, n, fails)
      == [EventOf(cs[0], failed)] + Perform(cs[1..], State(s.errors || failed, Ignore), n + Count(cs[0]), fails)
  {
  }

  lemma {:induction false} DefaultRuns(cs: seq<Command>, more: seq<Command>, s: State, n: nat, fails: nat -> bool)
    requires Section(cs) && s.act == Default
    ensures var es := SectionEvents(cs, n, fails);
      Perform(cs + more, s, n, fails) == es + if AnyFailed(es) then [Exited] else Perform(more, s, n + Runs(es), fails)
  {
    hide SectionEvents, AnyFailed, Runs, Perform;
    NoEvents(n, fails);
    if cs == [] {
      assert cs + more == more;
    } else {
      assert Plain(cs[0]);
      assert (cs + more)[1..] == cs[1..] + more;
      if cs[0].Exec? && fails(n) {
        NoTrap(cs, n, fails);
        OneEvent(Ran(cs[0], true));
        ExitStep(cs + more, s, n, fails);
      } else {
        PlainStep(cs + more, s, n, fails);
        PlainStep(cs, s, n, fails);
        DefaultRuns(cs[1..], more, s, n + Count(cs[0]), fails);
        EventFirst(EventOf(cs[0], false), SectionEvents(cs[1..], n + Count(cs[0]), fails));
      }
    }
  }

  lemma ExitStep(cs: seq<Command>, s: State, n: nat, fails: nat -> bool)
    requires cs != [] && cs[0].Exec? && fails(n) && s.act == Default
    ensures Perform(cs, s, n, fails) == [Ran(cs[0], true)] + [Exited]
  {
  }

  lemma ModeStep(more: seq<Command>, s: State, n: nat, fails: nat -> bool)
    ensures Perform([IgnErr] + more, s, n, fails) == Perform(more, State(s.errors, Ignore), n, fails)
    ensures Perform([DefErr] + more, s, n, fails) == Perform(more, State(s.errors, Default), n, fails)
    ensures Perform([SkpErr] + more, s, n, fails) == Perform(more, State(s.errors, Skip), n, fails)
  {
    assert ([IgnErr] + more)[1..] == more && ([DefErr] + more)[1..] == more && ([SkpErr] + more)[1..] == more;
  }

  /** What a failure leads to in a section, up to its trap: with IGN_ERR the section goes on, with SKP_ERR it ends there
      and what is after the trap is performed, with DEF_ERR everything ends there. */
  lemma Modes(cs: seq<Command>, more: seq<Command>, s: State, n: nat, fails: nat -> bool)
    requires Section(cs)
    ensures var es, all := SectionEvents(cs, n, fails), IgnoringEvents(cs, n, fails);
      && Perform([IgnErr] + (cs + [Trap] + more), s, n, fails)
         == all + Perform(more, State(s.errors || AnyFailed(all), Ignore), n + Runs(all), fails)
      && Perform([SkpErr] + (cs + [Trap] + more), s, n, fails)
         == es + Perform(more, State(s.errors || AnyFailed(es), Skip), n + Runs(es), fails)
      && Perform([DefErr] + (cs + [Trap] + more), s, n, fails)
         == es + if AnyFailed(es) then [Exited] else Perform(more, State(s.errors, Default), n + Runs(es), fails)
  {
    hide *;
    var es, all := SectionEvents(cs, n, fails), IgnoringEvents(cs, n, fails);
    ModeStep(cs + [Trap] + more, s, n, fails);
    assert cs + [Trap] + more == cs + ([Trap] + more);
    IgnoringRuns(cs, [Trap] + more, State(s.errors, Ignore), n, fails);
    TrapStep(more, State(s.errors || AnyFailed(all), Ignore), n + Runs(all), fails);
    DefaultRuns(cs, [Trap] + more, State(s.errors, Default), n, fails);
    TrapStep(more, State(s.errors, Default), n + Runs(es), fails);
    SectionRuns(cs, more, State(s.errors, Skip), n, fails);
  }

  /** The command after a guard is performed if and only if something has failed before and the guard is IF_ERR, or nothing
      has and it is IF_NERR. */
  lemma Guards(cs: seq<Command>, g: Command, c: Command, more: seq<Command>, n: nat, fails: nat -> bool)
    requires Section(cs) && (g.IfErr? || g.IfNerr?)
    ensures var es := SectionEvents(cs, n, fails);
      Perform(cs + [Trap] + ([g, c] + more), State(false, Skip), n, fails)
      == es + Perform((if g.IfErr? == AnyFailed(es) then [c] else []) + more, State(AnyFailed(es), Skip), n + Runs(es), fails)
  {
    hide *;
    var es := SectionEvents(cs, n, fails);
    SectionRuns(cs, [g, c] + more, State(false, Skip), n, fails);
    GuardEither(g, c, more, State(AnyFailed(es), Skip), n + Runs(es), fails);
    assert [] + more == more;
  }

  lemma GuardEither(g: Command, c: Command, more: seq<Command>, s: State, n: nat, fails: nat -> bool)
    requires g.IfErr? || g.IfNerr?
    ensures Perform([g, c] + more, s, n, fails) == Perform((if g.IfErr? == s.errors then [c] else []) + more, s, n, fails)
  {
    var cs := [g, c] + more;
    assert cs[1..] == [c] + more;
    assert Rest(cs[1..]) == more;
    assert [] + more == more;
  }

  // ---------------------------------------------------------------- whole scripts

  /** The parts of what doit writes: the sections of the source files, the removal of temporary files, the link step
      under IF_NERR if there is one, other commands, and the end. */
  datatype Script = Script(echo: bool, sections: seq<seq<Command>>, clean: seq<Command>,
                           link: Option<Command>, others: seq<Command>, last: seq<Command>, self: name)

  function Linking(p: Script): seq<Command> {
    match p.link case None => [] case Some(l) => [IfNerr, l]
  }

  function Finish(p: Script): seq<Command> {
    Linking(p) + p.others + [Trap] + Closing(p.last, p.self)
  }

  function Commands(p: Script): seq<Command> {
    [SkpErr] + (if p.echo then [Echo] else []) + Joined(p.sections) + (p.clean + Finish(p))
  }

  ghost predicate WellFormed(p: Script) {
    && AllSections(p.sections) && AllQuiet(p.clean) && AllTame(p.others) && AllQuiet(p.last)
    && (p.link.Some? ==> p.link.value.Exec?)
  }

  /** What happens before the link step: every section up to its first failure, then the removals. */
  function Before(p: Script, fails: nat -> bool): seq<Event>
    requires WellFormed(p)
  {
    SectionsEvents(p.sections, 0, fails) + QuietEvents(p.clean)
  }

  lemma {:induction false} QuietCounts(cs: seq<Command>)
    requires AllQuiet(cs)
    ensures Runs(QuietEvents(cs)) == 0 && !AnyFailed(QuietEvents(cs))
  {
    if cs != [] {
      QuietCounts(cs[1..]);
      EventFirst(EventOf(cs[0], false), QuietEvents(cs[1..]));
    }
  }

  lemma Beginning(p: Script, fails: nat -> bool)
    ensures Perform(Commands(p), State(false, Default), 0, fails)
      == Perform(Joined(p.sections) + (p.clean + Finish(p)), State(false, Skip), 0, fails)
  {
    var rest := Joined(p.sections) + (p.clean + Finish(p));
    var cs := Commands(p);
    if p.echo {
      assert cs[1..] == [Echo] + rest;
      assert cs[1..][1..] == rest;
    } else {
      assert cs[1..] == rest;
    }
  }

  /** The whole script: everything before the link step happens section by section; the linker is run exactly when none of
      the programs before it failed. */
  lemma ScriptRuns(p: Script, fails: nat -> bool) returns (after: seq<Event>)
    requires WellFormed(p)
    ensures var before := Before(p, fails);
      && Perform(Commands(p), State(false, Default), 0, fails) == before + after
      && after == Perform(Finish(p), State(AnyFailed(before), Skip), Runs(before), fails)
      && (p.link.Some? ==> if AnyFailed(before) then
            after == Perform(p.others + [Trap] + Closing(p.last, p.self), State(true, Skip), Runs(before), fails)
          else after != [] && after[0] == Ran(p.link.value, fails(Runs(before))))
  {
    hide Perform, SectionsEvents, QuietEvents, Joined, Closing, AllSections, Runs, AnyFailed, SectionEvents, AllQuiet;
    var es, q := SectionsEvents(p.sections, 0, fails), QuietEvents(p.clean);
    Beginning(p, fails);
    SectionsRun(p.sections, p.clean + Finish(p), State(false, Skip), 0, fails);
    var s, n := State(AnyFailed(es), Skip), Runs(es);
    QuietRuns(p.clean, Finish(p), s, n, fails);
    QuietCounts(p.clean);
    RunsSum(es, q);
    after := Perform(Finish(p), s, n, fails);
    assert es + (q + after) == es + q + after;
    if p.link.Some? {
      var more := p.others + [Trap] + Closing(p.last, p.self);
      assert Finish(p) == [IfNerr, p.link.value] + more;
      GuardedStep(p.link.value, more, s, n, fails);
      if !s.errors { FirstRuns(p.link.value, more, s, n, fails); }
    }
  }

  lemma FirstRuns(c: Command, more: seq<Command>, s: State, n: nat, fails: nat -> bool)
    requires c.Exec?
    ensures Perform([c] + more, s, n, fails) != [] && Perform([c] + more, s, n, fails)[0] == Ran(c, fails(n))
  {
  }

  lemma {:induction false} JoinedTame(sections: seq<seq<Command>>)
    requires AllSections(sections)
    ensures AllTame(Joined(sections))
  {
    if sections != [] {
      JoinedTame(sections[1..]);
      assert Section(sections[0]);
    }
  }

  /** And it ends by removing the command file, whatever fails. */
  lemma ScriptEnds(p: Script, fails: nat -> bool)
    requires WellFormed(p)
    ensures EndsRemoving(Perform(Commands(p), State(false, Default), 0, fails), p.self)
  {
    JoinedTame(p.sections);
    Beginning(p, fails);
    var body := Joined(p.sections) + p.clean + Linking(p) + p.others;
    assert Joined(p.sections) + (p.clean + Finish(p)) == body + [Trap] + Closing(p.last, p.self);
    hide Perform;
    AlwaysEnds(body, p.last, p.self, State(false, Skip), 0, fails);
  }

  /** Every section with a program has its first program run. */
  lemma {:induction false} EachStarts(sections: seq<seq<Command>>, i: nat, n: nat, fails: nat -> bool) returns (failed: bool)
    requires AllSections(sections) && i < |sections| && FirstProgram(sections[i]).Some?
    ensures Ran(FirstProgram(sections[i]).value, failed) in SectionsEvents(sections, n, fails)
  {
    hide SectionEvents;
    var es := SectionEvents(sections[0], n, fails);
    if i == 0 {
      failed := fails(n);
      SectionStarts(sections[0], n, fails);
    } else {
      failed := EachStarts(sections[1..], i - 1, n + Runs(es), fails);
    }
  }
}
