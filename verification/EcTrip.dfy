/** ec.c and exec.as together: what comes of a command file the driver has written, for any pattern of failing programs. */
module EcTrip {
  import opened Bytes
  import opened CommandFile
  import opened Executor
  import opened Driver
  import opened EcItems
  import opened Ec
  import opened EcRuns
  import opened EcPrograms
  import opened EcBuild

  /** The driver and then the interpreter, for any pattern of failing programs: every source file is started, the linker is
      run exactly when nothing before it failed, the temporary files are removed and, last of all, the command file. `file` is
      what the file for arguments holds when the interpreter starts. */
  method CompileAndExecute(b: Build, pad: seq<byte>, fails: nat -> bool)
    returns (events: seq<Event>, file: Option<string>, ghost after: seq<Event>)
    requires ShortNames(b.names) && ArgumentsShort(b.link) && Reasonable(b) && Padding(pad)
    ensures WellFormed(b.Plan()) && events == Whole(b, fails) == Before(b.Plan(), fails) + after
    ensures file == b.Redirected(b.Items())
    ensures forall k :: 0 <= k < |b.sources| && !b.sources[k].kind.SourceOther? ==>
      WasRun(b.RunOf(Starter(b, b.sources[k])), Before(b.Plan(), fails))
    ensures forall x :: x in b.CleanItems() ==> Removed(b.File(x.file)) in Before(b.Plan(), fails)
    ensures EndsRemoving(events, b.File(b.names.execmd))
    ensures !b.opt.keep && !AnyFailed(Before(b.Plan(), fails)) ==>
      after != [] && after[0] == Ran(b.Run(b.names.linker, b.LinkArguments()), fails(Runs(Before(b.Plan(), fails))))
    ensures !b.opt.keep && AnyFailed(Before(b.Plan(), fails)) ==>
      after == Perform(b.Others() + [Trap] + Closing(b.Plan().last, b.Plan().self), State(true, Skip), Runs(Before(b.Plan(), fails)), fails)
    ensures Apart(b) ==> (RanProgram(events, Linker(b)) <==> !b.opt.keep && !AnyFailed(Before(b.Plan(), fails)))
    ensures Apart(b) ==> (RanProgram(events, Converter(b)) && !RanProgram(events, Linker(b))
      <==> b.opt.reloc && !b.opt.keep && AnyFailed(Before(b.Plan(), fails)))
    ensures (forall m :: !fails(m)) ==> events == AllEvents(b.Expanded(b.Items()))
  {
    PlanWellFormed(b);
    WholeIs(b, fails);
    if Apart(b) { LinkerRuns(b, fails); ConvertedExact(b, fails); }
    if forall m :: !fails(m) { UnfailedRun(b, fails); }
    ItemsPlan(b);
    PlanEnds(b);
    hide *;
    var c := new Compiler(b);
    c.Doit();
    Written(c, pad);
    file := c.redirection;
    events := Execute(c.cmdfile + pad, fails, Commands(b.Plan()));
    after := ScriptRuns(b.Plan(), fails);
    ScriptEnds(b.Plan(), fails);
    forall k | 0 <= k < |b.sources| && !b.sources[k].kind.SourceOther?
      ensures WasRun(b.RunOf(Starter(b, b.sources[k])), Before(b.Plan(), fails))
    {
      AllStart(b, k, fails);
    }
    forall x | x in b.CleanItems() ensures Removed(b.File(x.file)) in Before(b.Plan(), fails) {
      TemporariesRemoved(b, fails, x);
    }
  }

  lemma Written(c: Compiler, pad: seq<byte>)
    requires c.Valid() && c.items == c.b.Items() && Padding(pad)
    ensures Holds(c.cmdfile + pad, Commands(c.b.Plan())) && c.redirection == c.b.Redirected(c.b.Items())
  {
    ItemsPlan(c.b);
    hide Commands, Stream, AllEncodable, Padding;
  }
}
