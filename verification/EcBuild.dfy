/** The whole of a command file of ec.c when no program fails: the program comes of all the sources. */
module EcBuild {
  import opened Bytes
  import opened CommandFile
  import opened Driver
  import opened EcItems
  import opened EcRuns
  import opened EcPrograms
  import opened EcRedirect
  import opened EcFlow

  // ---------------------------------------------------------------- what is linked

  /** The object files and libraries, in order. */
  function Inputs(b: Build): seq<string> {
    if b.opt.overlay then KeptObjects(b.link.objs, b.names.strtoff) + b.link.libs
    else b.link.objs + (if b.opt.wildcard then ["WCR.OBJ"] else []) + b.link.libs + [b.link.stdlib]
  }

  /** The file the program is to be in. */
  function Target(b: Build): string {
    if b.opt.overlay && !b.opt.reloc && |b.link.outfile| >= 3 then b.link.outfile[..|b.link.outfile| - 3] + "OVR" else b.link.outfile
  }

  /** The linker's flags are flags, none of them -O, and the other names are not. */
  ghost predicate PlainLink(b: Build) {
    && AllFlags(b.link.flgs) && Flag(b.link.segopt) && Flag(b.link.origin)
    && (forall i :: 0 <= i < |b.link.flgs| ==> !("-O" <= b.link.flgs[i])) && !("-O" <= b.link.segopt) && !("-O" <= b.link.origin)
    && NoFlags(b.link.objs) && NoFlags(b.link.libs) && !Flag(b.link.stdlib) && !Flag(b.names.ldotobj) && PlainName(b.link.outfile)
  }

  lemma {:induction false} KeptPlain(objs: seq<string>, left: string)
    requires NoFlags(objs)
    ensures NoFlags(KeptObjects(objs, left))
  {
    if objs != [] {
      assert !Flag(objs[|objs| - 1]);
      assert NoFlags(objs[..|objs| - 1]);
      KeptPlain(objs[..|objs| - 1], left);
    }
  }

  lemma InputsPlain(b: Build)
    requires PlainLink(b)
    ensures NoFlags(Inputs(b))
  {
    KeptPlain(b.link.objs, b.names.strtoff);
    hide KeptObjects;
  }

  function LinkFlags(b: Build): seq<string> {
    b.link.flgs + [b.link.segopt] + (if b.opt.reloc then [] else [b.link.origin])
  }

  function Linkfile(b: Build): string {
    if b.opt.reloc then b.names.ldotobj else Target(b)
  }

  lemma ArgumentsSplit(b: Build)
    ensures b.LinkArguments() == LinkFlags(b) + ["-O" + Linkfile(b)] + Inputs(b)
  {
    hide KeptObjects;
    var rest := Inputs(b);
    assert b.LinkFront() == LinkFlags(b) + ["-O" + Linkfile(b)];
    assert rest == (if b.opt.overlay then KeptObjects(b.link.objs, b.names.strtoff) else b.link.objs) + b.LinkLibraries();
    b.ArgumentsAre();
    hide b.LinkArguments, b.LinkFront, b.LinkLibraries, Inputs, LinkFlags, Linkfile;
  }

  /** The linker is given these inputs, and that output. */
  lemma LinkerGiven(b: Build)
    requires PlainLink(b)
    ensures FilesIn(b.LinkArguments()) == Inputs(b) && OptionOf(b.LinkArguments(), "-O") == Some(Linkfile(b))
  {
    var flags, o, xs := LinkFlags(b), "-O" + Linkfile(b), Inputs(b);
    ArgumentsSplit(b);
    InputsPlain(b);
    FlagsPlain(b);
    hide b.LinkArguments, LinkFlags, Linkfile, Inputs, PlainLink;
    FlagsOnly(flags);
    FilesOnly(xs);
    FlagsOnly([o]);
    FilesInSum(flags, [o]);
    FilesInSum(flags + [o], xs);
    NoOutputs(xs);
    OptionSum(flags, [o], "-O");
    OptionSum(flags + [o], xs, "-O");
    OutputOnly(Linkfile(b));
  }

  lemma NoOutputs(xs: seq<string>)
    requires NoFlags(xs)
    ensures OptionOf(xs, "-O") == None
  {
    forall i | 0 <= i < |xs| ensures !("-O" <= xs[i]) { NotOutput(xs[i]); }
    NoOption(xs, "-O");
  }

  lemma NotOutput(x: string)
    requires !Flag(x)
    ensures !("-O" <= x)
  {
    assert "-O"[0] == '-';
  }

  lemma OutputOnly(out: string)
    ensures OptionOf(["-O" + out], "-O") == Some(out)
  {
    var o: string := "-O" + out;
    assert [o][1..] == [];
    assert OptionOf([], "-O") == None;
    assert "-O" <= o && o[2..] == out;
  }

  lemma FlagsPlain(b: Build)
    requires PlainLink(b)
    ensures AllFlags(LinkFlags(b))
  {
  }

  /** What is to become of the inputs. */
  function PartsOf(b: Build, fs: Files, xs: seq<string>): seq<Content> {
    if xs == [] then []
    else (match Expected(b, |b.sources|, fs, xs[0]) case Some(c) => [c] case None => []) + PartsOf(b, fs, xs[1..])
  }

  /** Each input is an object file made of a source, or was there before. */
  ghost predicate Inputable(b: Build, fs: Files, x: string) {
    x !in Temps(b) && match Expected(b, |b.sources|, fs, x) case Some(c) => c.Object? || c.Ready? case None => false
  }

  ghost predicate AllInputable(b: Build, fs: Files, xs: seq<string>) {
    forall i :: 0 <= i < |xs| ==> Inputable(b, fs, xs[i])
  }

  /** The files `g` are as expected when all sources have been dealt with, temporary ones apart. */
  ghost predicate AsExpected(b: Build, fs: Files, g: Files) {
    forall f :: f !in Temps(b) ==> Lookup(g, f) == Expected(b, |b.sources|, fs, f)
  }

  lemma {:induction false} PartsFound(b: Build, fs: Files, g: Files, xs: seq<string>)
    requires AsExpected(b, fs, g) && AllInputable(b, fs, xs)
    ensures Parts(g, xs) == Some(PartsOf(b, fs, xs))
  {
    hide Temps, Expected;
    if xs != [] {
      assert Inputable(b, fs, xs[0]);
      assert Lookup(g, xs[0]) == Expected(b, |b.sources|, fs, xs[0]);
      assert AllInputable(b, fs, xs[1..]);
      PartsFound(b, fs, g, xs[1..]);
    }
  }

  /** The object file of a source is among the parts if it is among the inputs. */
  lemma {:induction false} SourceLinked(b: Build, fs: Files, xs: seq<string>, x: string)
    requires x in xs && Latest(b, |b.sources|, x).Some?
    ensures Latest(b, |b.sources|, x).value in PartsOf(b, fs, xs)
  {
    hide Latest;
    if x != xs[0] { SourceLinked(b, fs, xs[1..], x); }
  }

  // ---------------------------------------------------------------- the link step

  lemma LinkerFlow(b: Build, fs: Files, g: Files) returns (h: Files)
    requires Named(b) && PlainLink(b) && AsExpected(b, fs, g) && AllInputable(b, fs, Inputs(b))
    ensures Step(b, Do(b.names.linker, b.LinkArguments()), g) == Some(h)
    ensures Wrote(b, g, h, Linkfile(b), Linked(PartsOf(b, fs, Inputs(b))))
  {
    ToolsAre(b);
    LinkerGiven(b);
    PartsFound(b, fs, g, Inputs(b));
    hide *;
    h := LinkerUses(b, b.LinkArguments(), Linkfile(b), PartsOf(b, fs, Inputs(b)), g);
  }

  lemma LinkerUses(b: Build, vec: vector, out: string, parts: seq<Content>, g: Files) returns (h: Files)
    requires ToolOf(b.names, b.names.linker) == Some(Linker) && OptionOf(vec, "-O") == Some(out)
    requires Parts(g, FilesIn(vec)) == Some(parts)
    ensures Step(b, Do(b.names.linker, vec), g) == Some(h) && Wrote(b, g, h, out, Linked(parts))
  {
    hide FilesIn, OptionOf, Parts, Long, ToolOf;
    h := Use(Linker, vec, g).value;
    if Long(vec) { h := h - {b.names.redname}; }
  }

  /** The names of the last files are told apart. */
  ghost predicate Outputs(b: Build) {
    && Target(b) !in Temps(b) && b.names.ldotobj !in Temps(b) && b.names.ldotobj != Target(b)
    && b.link.single != Target(b) && b.link.single !in Temps(b)
  }

  lemma ObjtoFlow(b: Build, g: Files, parts: seq<Content>) returns (h: Files)
    requires Named(b) && PlainLink(b) && Lookup(g, b.names.ldotobj) == Some(Linked(parts))
    ensures Step(b, b.ObjtoItem(), g) == Some(h) && Wrote(b, g, h, b.link.outfile, Converted(parts))
  {
    ToolsAre(b);
    var flags, n := ["-R", "-B100H"], b.names;
    assert flags + [n.ldotobj, b.link.outfile] == ["-R", "-B100H", n.ldotobj, b.link.outfile];
    hide Step, Named, ToolOf;
    h := Converts(b, n.objto, Objto, flags, n.ldotobj, b.link.outfile, g);
  }

  lemma Erased(b: Build, f: string, g: Files)
    ensures Step(b, Erase(f), g) == Some(g - {f})
  {
  }

  function Product(b: Build, fs: Files): Content {
    if b.opt.reloc then Converted(PartsOf(b, fs, Inputs(b))) else Linked(PartsOf(b, fs, Inputs(b)))
  }

  /** The temporary files of the passes are gone. */
  predicate Swept(b: Build, g: Files) {
    b.names.tmpf1 !in g && b.names.tmpf2 !in g && b.names.tmpf3 !in g && b.names.tmpf5 !in g
  }

  /** What linking leaves behind: neither the file between linker and conversion nor the object file of an only source. */
  ghost predicate LinkLeft(b: Build, h: Files) {
    && (b.opt.reloc ==> b.names.ldotobj !in h)
    && (|b.sources| == 1 && b.link.nfiles == 1 ==> b.link.single !in h)
  }

  /** The link step and the conversion make the program of all the inputs. */
  lemma LinkFlow(b: Build, fs: Files, g: Files) returns (h: Files)
    requires Named(b) && PlainLink(b) && Outputs(b) && AsExpected(b, fs, g) && AllInputable(b, fs, Inputs(b)) && !b.opt.keep
    ensures Flow(b, b.LinkItems(), g) == Some(h) && Lookup(h, Target(b)) == Some(Product(b, fs))
    ensures Lookup(h, b.names.crtmp) == Lookup(g, b.names.crtmp) && LinkLeft(b, h) && (Swept(b, g) ==> Swept(b, h))
  {
    var x := Do(b.names.linker, b.LinkArguments());
    b.LinkIs();
    TempsApart(b);
    hide Step, Flow, Named, PlainLink, AsExpected, AllInputable, PartsOf, Inputs, b.LinkArguments, b.LinkItems, b.AfterLink, Swept;
    h := LinkerFlow(b, fs, g);
    assert Lookup(h, b.names.crtmp) == Lookup(g, b.names.crtmp);
    StillSwept(b, g, h, Linkfile(b), Linked(PartsOf(b, fs, Inputs(b))));
    assert Lookup(h, Linkfile(b)) == Some(Linked(PartsOf(b, fs, Inputs(b))));
    FlowTwo(b, Mark(IfNerr), x, g, g) by { MarkFlow(b, IfNerr, g); }
    assert [Mark(IfNerr)] + [x] == [Mark(IfNerr), x];
    FlowSum(b, [Mark(IfNerr)] + [x], b.AfterLink(), g);
    h := AfterFlow(b, h, PartsOf(b, fs, Inputs(b)));
  }

  lemma StillSwept(b: Build, g: Files, h: Files, o: string, c: Content)
    requires Named(b) && Wrote(b, g, h, o, c) && o !in Temps(b)
    ensures Swept(b, g) ==> Swept(b, h)
  {
    var n := b.names;
    TempsApart(b);
    assert Lookup(h, n.tmpf1) == Lookup(g, n.tmpf1) && Lookup(h, n.tmpf2) == Lookup(g, n.tmpf2);
    assert Lookup(h, n.tmpf3) == Lookup(g, n.tmpf3) && Lookup(h, n.tmpf5) == Lookup(g, n.tmpf5);
  }

  lemma AfterFlow(b: Build, g: Files, parts: seq<Content>) returns (h: Files)
    requires Named(b) && PlainLink(b) && Outputs(b) && Lookup(g, Linkfile(b)) == Some(Linked(parts))
    ensures Flow(b, b.AfterLink(), g) == Some(h)
    ensures Lookup(h, Target(b)) == Some(if b.opt.reloc then Converted(parts) else Linked(parts))
    ensures Lookup(h, b.names.crtmp) == Lookup(g, b.names.crtmp) && LinkLeft(b, h) && (Swept(b, g) ==> Swept(b, h))
  {
    var n, one := b.names, |b.sources| == 1 && b.link.nfiles == 1;
    var first := if b.opt.reloc then [b.ObjtoItem(), Erase(n.ldotobj)] else [];
    var last := if one then [Erase(b.link.single)] else [];
    TempsApart(b);
    hide Step, Flow, Named, PlainLink;
    h := g;
    NothingFlows(b, h);
    if b.opt.reloc {
      h := ObjtoFlow(b, g, parts);
      FlowTwo(b, b.ObjtoItem(), Erase(n.ldotobj), g, h);
      Erased(b, n.ldotobj, h);
      assert Lookup(h, Target(b)) == Some(Converted(parts));
      assert Lookup(h, n.crtmp) == Lookup(g, n.crtmp);
      StillSwept(b, g, h, b.link.outfile, Converted(parts));
      h := h - {n.ldotobj};
    }
    assert Lookup(h, Target(b)) == Some(if b.opt.reloc then Converted(parts) else Linked(parts));
    FlowSum(b, first, last, g);
    NothingFlows(b, h);
    if one {
      FlowOne(b, Erase(b.link.single), h);
      Erased(b, b.link.single, h);
      h := h - {b.link.single};
    }
    assert b.AfterLink() == first + last;
  }

  lemma NothingFlows(b: Build, g: Files)
    ensures Flow(b, [], g) == Some(g)
  {
  }

  // ---------------------------------------------------------------- before and after it

  lemma CleanFlow(b: Build, g: Files)
    ensures Flow(b, b.CleanItems(), g) == Some(g - {b.names.tmpf1, b.names.tmpf2, b.names.tmpf3, b.names.tmpf5})
  {
    var n := b.names;
    var g1 := g - {n.tmpf1};
    var g2 := g1 - {n.tmpf2};
    var g3 := g2 - {n.tmpf3};
    var g4 := g3 - {n.tmpf5};
    assert b.CleanItems() == [Erase(n.tmpf1), Erase(n.tmpf2)] + [Erase(n.tmpf3), Erase(n.tmpf5)];
    hide Step, Flow, b.CleanItems;
    Erased(b, n.tmpf1, g);
    Erased(b, n.tmpf2, g1);
    Erased(b, n.tmpf3, g2);
    Erased(b, n.tmpf5, g3);
    FlowTwo(b, Erase(n.tmpf1), Erase(n.tmpf2), g, g1);
    FlowTwo(b, Erase(n.tmpf3), Erase(n.tmpf5), g2, g3);
    FlowSum(b, [Erase(n.tmpf1), Erase(n.tmpf2)], [Erase(n.tmpf3), Erase(n.tmpf5)], g);
    assert g4 == g - {n.tmpf1, n.tmpf2, n.tmpf3, n.tmpf5};
  }

  /** The cross-referencer is run at all. */
  predicate Crossed(b: Build) {
    b.opt.xref && b.link.xrname.Some?
  }

  /** The file the listing is to be in. */
  function Listfile(b: Build): string
    requires Crossed(b)
  {
    if |b.link.xrname.value| >= 2 then b.link.xrname.value[2..] else ""
  }

  ghost predicate PlainCross(b: Build) {
    Crossed(b) ==> (
      && "-o" <= b.link.xrname.value && Flag(b.link.listing) && !("-o" <= b.link.listing)
      && Listfile(b) !in Temps(b) && Listfile(b) != Target(b) && Listfile(b) != b.names.execmd
      && Listfile(b) != b.names.ldotobj && Listfile(b) != b.link.single)
  }

  /** The file is none that the driver or the cross-referencer has for itself. */
  predicate Elsewhere(b: Build, f: string) {
    f !in Temps(b) && f != b.names.execmd && !(Crossed(b) && f == Listfile(b))
  }

  lemma CrossGiven(b: Build)
    requires Named(b) && Crossed(b) && PlainCross(b)
    ensures var vec := [b.link.xrname.value, b.link.listing, b.names.crtmp];
      FilesIn(vec) == [b.names.crtmp] && OptionOf(vec, "-o") == Some(Listfile(b))
  {
    var x, y, z := b.link.xrname.value, b.link.listing, b.names.crtmp;
    TempsApart(b);
    assert x[0] == '-';
    FlagsOnly([x, y]);
    FilesOnly([z]);
    FilesInSum([x, y], [z]);
    assert [x, y] + [z] == [x, y, z];
    assert !("-o" <= z) by { assert "-o"[0] == '-'; }
    NoOption([y, z], "-o");
    OptionSum([x], [y, z], "-o");
    assert [x] + [y, z] == [x, y, z];
    LastOption(x, "-o");
  }

  lemma LastOption(x: string, p: string)
    requires p <= x
    ensures OptionOf([x], p) == Some(x[|p|..])
  {
    assert [x][1..] == [];
    assert OptionOf([], p) == None;
  }

  /** The listing covers the C files, in order. */
  lemma CrossFlow(b: Build, g: Files) returns (h: Files)
    requires Named(b) && PlainCross(b) && (b.opt.xref ==> Lookup(g, b.names.crtmp) == Some(Info(Paths(b, |b.sources|))))
    ensures Flow(b, b.CrossItems(), g) == Some(h)
    ensures Crossed(b) ==> Lookup(h, Listfile(b)) == Some(Listing(Paths(b, |b.sources|)))
    ensures (Crossed(b) ==> b.names.crtmp !in h) && (Swept(b, g) ==> Swept(b, h))
    ensures forall f :: f !in Temps(b) && !(Crossed(b) && f == Listfile(b)) ==> Lookup(h, f) == Lookup(g, f)
  {
    if Crossed(b) {
      b.CrossIs(b.link.xrname.value);
      CrossGiven(b);
      TempsApart(b);
      var vec := [b.link.xrname.value, b.link.listing, b.names.crtmp];
      hide Step, Flow, Named, FilesIn, OptionOf, b.CrossItems, Paths;
      h := CrossUses(b, vec, Listfile(b), g);
      assert Lookup(h, Listfile(b)) == Some(Listing(Paths(b, |b.sources|)));
      StillSwept(b, g, h, Listfile(b), Listing(Paths(b, |b.sources|)));
      FlowTwo(b, Mark(IfNerr), Do(b.names.cref, vec), g, g) by { MarkFlow(b, IfNerr, g); }
      assert [Mark(IfNerr)] + [Do(b.names.cref, vec)] == [Mark(IfNerr), Do(b.names.cref, vec)];
      FlowSum(b, [Mark(IfNerr)] + [Do(b.names.cref, vec)], [Erase(b.names.crtmp)], g);
      FlowOne(b, Erase(b.names.crtmp), h);
      Erased(b, b.names.crtmp, h);
      h := h - {b.names.crtmp};
    } else {
      h := g;
      NothingFlows(b, g);
      if b.opt.xref {
        FlowOne(b, b.CrossItems()[0], g);
      }
    }
  }

  lemma CrossUses(b: Build, vec: vector, out: string, g: Files) returns (h: Files)
    requires Named(b) && FilesIn(vec) == [b.names.crtmp] && OptionOf(vec, "-o") == Some(out)
    requires b.names.crtmp in g && g[b.names.crtmp].Info?
    ensures Step(b, Do(b.names.cref, vec), g) == Some(h) && Wrote(b, g, h, out, Listing(g[b.names.crtmp].sources))
  {
    ToolsAre(b);
    hide FilesIn, OptionOf, Long, ToolOf, Named;
    h := Use(Cref, vec, g).value;
    if Long(vec) { h := h - {b.names.redname}; }
  }

  // ---------------------------------------------------------------- all of it

  /** What the driver relies on when it links. */
  ghost predicate LinkReady(b: Build, fs: Files) {
    PlainLink(b) && Outputs(b) && Target(b) != b.names.execmd && AllInputable(b, fs, Inputs(b))
  }

  lemma OpeningFlow(b: Build, g: Files)
    ensures Flow(b, b.Opening(), g) == Some(g)
  {
    FlowOne(b, Mark(SkpErr), g);
    if b.opt.verbose { FlowTwo(b, Mark(SkpErr), Mark(Echo), g, g); }
    assert b.Opening() == if b.opt.verbose then [Mark(SkpErr), Mark(Echo)] else [Mark(SkpErr)];
  }

  lemma EndFlow(b: Build, g: Files)
    ensures Flow(b, [Mark(Trap)] + [Leave(b.names.execmd)], g) == Some(g - {b.names.execmd})
  {
    FlowTwo(b, Mark(Trap), Leave(b.names.execmd), g, g);
    assert [Mark(Trap)] + [Leave(b.names.execmd)] == [Mark(Trap), Leave(b.names.execmd)];
  }

  /** The link step, if there is one. */
  lemma LinkPart(b: Build, fs: Files, g: Files) returns (h: Files)
    requires Named(b) && AsExpected(b, fs, g) && (!b.opt.keep ==> LinkReady(b, fs))
    ensures Flow(b, b.LinkItems(), g) == Some(h) && Lookup(h, b.names.crtmp) == Lookup(g, b.names.crtmp)
    ensures (b.opt.keep ==> h == g) && (Swept(b, g) ==> Swept(b, h))
    ensures !b.opt.keep ==> Lookup(h, Target(b)) == Some(Product(b, fs)) && LinkLeft(b, h)
  {
    if b.opt.keep {
      b.LinkIs();
      NothingFlows(b, g);
      h := g;
    } else {
      hide Flow, AllInputable, AsExpected, PlainLink, Outputs, Product, LinkLeft, Swept;
      h := LinkFlow(b, fs, g);
    }
  }

  /** Nothing of what the driver needs for itself is left. */
  ghost predicate Tidy(b: Build, g: Files) {
    Swept(b, g) && b.names.execmd !in g && (Crossed(b) ==> b.names.crtmp !in g) && (!b.opt.keep ==> LinkLeft(b, g))
  }

  /** After the source files. */
  lemma RestFlow(b: Build, fs: Files, g: Files) returns (h: Files)
    requires Named(b) && Reached(b, |b.sources|, fs, g) && PlainCross(b) && (!b.opt.keep ==> LinkReady(b, fs))
    ensures Flow(b, b.CleanItems() + b.LinkItems() + b.CrossItems() + ([Mark(Trap)] + [Leave(b.names.execmd)]), g) == Some(h)
    ensures Crossed(b) ==> Lookup(h, Listfile(b)) == Some(Listing(Paths(b, |b.sources|)))
    ensures !b.opt.keep ==> Lookup(h, Target(b)) == Some(Product(b, fs))
    ensures b.opt.keep ==> forall f :: Elsewhere(b, f) ==> Lookup(h, f) == Expected(b, |b.sources|, fs, f)
    ensures Tidy(b, h)
  {
    var end := [Mark(Trap)] + [Leave(b.names.execmd)];
    CleanFlow(b, g);
    var c := g - {b.names.tmpf1, b.names.tmpf2, b.names.tmpf3, b.names.tmpf5};
    Cleaned(b, fs, g, c);
    hide *;
    var l := LinkPart(b, fs, c);
    var x := CrossFlow(b, l);
    h := x - {b.names.execmd};
    EndFlow(b, x);
    FlowSum(b, b.CleanItems(), b.LinkItems(), g);
    FlowSum(b, b.CleanItems() + b.LinkItems(), b.CrossItems(), g);
    FlowSum(b, b.CleanItems() + b.LinkItems() + b.CrossItems(), end, g);
    RestYields(b, fs, c, l, x, h);
  }

  lemma Cleaned(b: Build, fs: Files, g: Files, c: Files)
    requires Named(b) && Reached(b, |b.sources|, fs, g)
    requires c == g - {b.names.tmpf1, b.names.tmpf2, b.names.tmpf3, b.names.tmpf5}
    ensures AsExpected(b, fs, c) && Swept(b, c) && (b.opt.xref ==> Lookup(c, b.names.crtmp) == Some(Info(Paths(b, |b.sources|))))
  {
    TempsApart(b);
    hide Named, Expected, Paths;
  }

  lemma RestYields(b: Build, fs: Files, c: Files, l: Files, x: Files, h: Files)
    requires AsExpected(b, fs, c) && PlainCross(b) && (!b.opt.keep ==> LinkReady(b, fs)) && (b.opt.keep ==> l == c)
    requires !b.opt.keep ==> Lookup(l, Target(b)) == Some(Product(b, fs)) && LinkLeft(b, l)
    requires Swept(b, x) && (Crossed(b) ==> b.names.crtmp !in x)
    requires Crossed(b) ==> Lookup(x, Listfile(b)) == Some(Listing(Paths(b, |b.sources|)))
    requires forall f :: f !in Temps(b) && !(Crossed(b) && f == Listfile(b)) ==> Lookup(x, f) == Lookup(l, f)
    requires h == x - {b.names.execmd}
    ensures Crossed(b) ==> Lookup(h, Listfile(b)) == Some(Listing(Paths(b, |b.sources|)))
    ensures !b.opt.keep ==> Lookup(h, Target(b)) == Some(Product(b, fs))
    ensures b.opt.keep ==> forall f :: Elsewhere(b, f) ==> Lookup(h, f) == Expected(b, |b.sources|, fs, f)
    ensures Tidy(b, h)
  {
    hide Temps, Expected, Product, Paths, AllInputable, PlainLink, Target, Listfile;
    if !b.opt.keep { LeftStill(b, fs, l, x); }
  }

  lemma LeftStill(b: Build, fs: Files, l: Files, x: Files)
    requires PlainCross(b) && LinkReady(b, fs) && LinkLeft(b, l)
    requires forall f :: f !in Temps(b) && !(Crossed(b) && f == Listfile(b)) ==> Lookup(x, f) == Lookup(l, f)
    ensures LinkLeft(b, x)
  {
    hide Temps, AllInputable, PlainLink, Target, Listfile;
    assert Lookup(x, b.names.ldotobj) == Lookup(l, b.names.ldotobj);
    assert Lookup(x, b.link.single) == Lookup(l, b.link.single);
  }

  /** When no program fails, each finds what it needs if and only if there is no symbol file without overlays. Then the program
      is made of all the inputs, the objects of the sources among them as they should be; without a link step each
      source has been turned into what is wanted; the cross-reference listing covers the C files in order; and nothing of
      the driver's own is left. */
  lemma BuildFlows(b: Build, fs: Files)
    requires Named(b) && Sources(b, fs) && PlainCross(b) && (!b.opt.keep ==> LinkReady(b, fs))
    ensures Flow(b, b.Items(), fs).Some? <==> NoneLost(b, |b.sources|)
    ensures NoneLost(b, |b.sources|) ==> (
      var g := Flow(b, b.Items(), fs).value;
      && (!b.opt.keep ==> Lookup(g, Target(b)) == Some(Product(b, fs)))
      && (b.opt.keep ==> forall f :: Elsewhere(b, f) ==> Lookup(g, f) == Expected(b, |b.sources|, fs, f))
      && (Crossed(b) ==> Lookup(g, Listfile(b)) == Some(Listing(Paths(b, |b.sources|))))
      && Tidy(b, g))
  {
    hide *;
    var n := |b.sources|;
    var mid := Trapped(b.Sections(n));
    var rest := b.CleanItems() + b.LinkItems() + b.CrossItems() + ([Mark(Trap)] + [Leave(b.names.execmd)]);
    b.ItemsAre();
    Regroup(b.Opening(), mid, b.CleanItems(), b.LinkItems(), b.CrossItems(), [Mark(Trap)], [Leave(b.names.execmd)]);
    SourcesFlow(b, n, fs);
    OpeningFlow(b, fs);
    FlowSum(b, b.Opening(), mid, fs);
    FlowSum(b, b.Opening() + mid, rest, fs);
    if NoneLost(b, n) {
      var h := RestFlow(b, fs, Flow(b, mid, fs).value);
    }
  }

  lemma Regroup(p: seq<Item>, q: seq<Item>, r: seq<Item>, s: seq<Item>, t: seq<Item>, u: seq<Item>, v: seq<Item>)
    ensures p + q + r + s + t + u + v == p + q + (r + s + t + (u + v))
  {
  }

  // ---------------------------------------------------------------- the run it is

  /** What is done when every command is performed in order, without a failure. */
  function AllEvents(cs: seq<Command>): seq<Event> {
    if cs == [] then [Exited]
    else match cs[0]
      case Exec(_, _, _, _) => [Ran(cs[0], false)] + AllEvents(cs[1..])
      case Print(text) => [Printed(text)] + AllEvents(cs[1..])
      case RmFile(file) => [Removed(file)] + AllEvents(cs[1..])
      case RmExit(file) => [Removed(file), Exited]
      case _ => AllEvents(cs[1..])
  }

  predicate Calm(c: Command) {
    c.Exec? || c.Print? || c.RmFile? || c.RmExit? || c.SkpErr? || c.Echo? || c.Trap? || c.IfNerr?
  }

  ghost predicate AllCalm(cs: seq<Command>) {
    forall i :: 0 <= i < |cs| ==> Calm(cs[i])
  }

  lemma {:induction false} CalmRuns(cs: seq<Command>, s: State, n: nat, fails: nat -> bool)
    requires AllCalm(cs) && !s.errors && forall m :: !fails(m)
    ensures Perform(cs, s, n, fails) == AllEvents(cs)
    decreases |cs|
  {
    if cs != [] {
      assert Calm(cs[0]);
      CalmRuns(cs[1..], s, n, fails);
      CalmRuns(cs[1..], s, n + 1, fails);
      CalmRuns(cs[1..], s.(act := Skip), n, fails);
    }
  }

  predicate CalmItem(x: Item) {
    x.Mark? ==> Calm(x.c)
  }

  ghost predicate CalmItems(xs: seq<Item>) {
    forall i :: 0 <= i < |xs| ==> CalmItem(xs[i])
  }

  lemma {:induction false} ExpandedCalm(b: Build, xs: seq<Item>)
    requires CalmItems(xs)
    ensures AllCalm(b.Expanded(xs))
  {
    hide b.Expand, CalmItem;
    if xs != [] {
      assert CalmItems(xs[..|xs| - 1]);
      ExpandedCalm(b, xs[..|xs| - 1]);
      assert CalmItem(xs[|xs| - 1]);
      ExpandCalm(b, xs[|xs| - 1]);
    }
  }

  lemma ExpandCalm(b: Build, x: Item)
    requires CalmItem(x)
    ensures AllCalm(b.Expand(x))
  {
    hide Ascii, b.File;
  }

  lemma {:induction false} TrappedCalm(sections: seq<seq<Item>>)
    requires AllWorking(sections)
    ensures CalmItems(Trapped(sections))
  {
    if sections != [] {
      var last := sections[|sections| - 1];
      TrappedCalm(sections[..|sections| - 1]);
      forall k | 0 <= k < |last| ensures CalmItem(last[k]) { assert EcRuns.Working(last[k]); }
    }
  }

  lemma EndsCalm(b: Build)
    ensures CalmItems(b.Opening()) && CalmItems(b.CleanItems()) && CalmItems(b.LinkItems()) && CalmItems(b.CrossItems())
  {
  }

  lemma CalmSum(xs: seq<Item>, ys: seq<Item>)
    requires CalmItems(xs) && CalmItems(ys)
    ensures CalmItems(xs + ys)
  {
  }

  lemma ItemsCalm(b: Build)
    ensures CalmItems(b.Items())
  {
    var end := [Mark(Trap)] + [Leave(b.names.execmd)];
    assert CalmItems(end);
    hide *;
    var mid := Trapped(b.Sections(|b.sources|));
    b.ItemsAre();
    Regroup(b.Opening(), mid, b.CleanItems(), b.LinkItems(), b.CrossItems(), [Mark(Trap)], [Leave(b.names.execmd)]);
    EndsCalm(b);
    SectionsWorking(b, |b.sources|);
    TrappedCalm(b.Sections(|b.sources|));
    CalmSum(b.Opening(), mid);
    CalmSum(b.CleanItems(), b.LinkItems());
    CalmSum(b.CleanItems() + b.LinkItems(), b.CrossItems());
    CalmSum(b.CleanItems() + b.LinkItems() + b.CrossItems(), end);
    CalmSum(b.Opening() + mid, b.CleanItems() + b.LinkItems() + b.CrossItems() + end);
  }

  /** When no program fails the command file has every item done, in order. */
  lemma UnfailedRun(b: Build, fails: nat -> bool)
    requires forall m :: !fails(m)
    ensures Whole(b, fails) == AllEvents(b.Expanded(b.Items()))
  {
    ItemsPlan(b);
    WholeIs(b, fails);
    hide *;
    ItemsCalm(b);
    ExpandedCalm(b, b.Items());
    CalmRuns(Commands(b.Plan()), CommandFile.State.State(false, Default), 0, fails) by { Unerring(); }
  }

  lemma Unerring()
    ensures !CommandFile.State.State(false, Default).errors
  {
  }

  // ---------------------------------------------------------------- two builds

  /** One C file, to be made into a program. */
  function Plainest(): Build {
    Build(Options(false, false, false, false, false, false, false, false, false, false), SampleNames(), Block,
          [Source("X.C", "X", SourceC)], [],
          Link(["-Z"], "-Ptext=0,data,bss", "-C100H", "X.COM", ["CRTCPM.OBJ", "X.OBJ"], [], "LIBC.LIB", "X.OBJ", 1, None, ""))
  }

  function PlainestFiles(): Files {
    map["X.C" := Given(SourceC, "X.C"), "CRTCPM.OBJ" := Ready("CRTCPM.OBJ"), "LIBC.LIB" := Ready("LIBC.LIB")]
  }

  lemma PlainestThere()
    ensures Sources(Plainest(), PlainestFiles())
  {
    var b := Plainest();
    var s := b.sources[0];
    assert "X" + ".OBJ" == "X.OBJ";
    assert |Result(b, s)| == 5 && |s.path| == 3;
    assert s.path !in Temps(b) && Result(b, s) !in Temps(b);
  }

  lemma PlainestInputs()
    ensures Inputs(Plainest()) == ["CRTCPM.OBJ", "X.OBJ", "LIBC.LIB"]
    ensures Expected(Plainest(), 1, PlainestFiles(), "CRTCPM.OBJ") == Some(Ready("CRTCPM.OBJ"))
    ensures Expected(Plainest(), 1, PlainestFiles(), "LIBC.LIB") == Some(Ready("LIBC.LIB"))
    ensures Expected(Plainest(), 1, PlainestFiles(), "X.OBJ") == Some(Object("X.C", AsWritten, false, true))
    ensures "CRTCPM.OBJ" !in Temps(Plainest()) && "X.OBJ" !in Temps(Plainest()) && "LIBC.LIB" !in Temps(Plainest())
  {
    var b := Plainest();
    assert "X" + ".OBJ" == "X.OBJ";
    assert |"X.OBJ"| == 5 && |"CRTCPM.OBJ"| == 10 && |"LIBC.LIB"| == 8;
    assert "LIBC.LIB"[0] == 'L' && "CREF.TMP"[0] == 'C' && "CRTCPM.OBJ"[0] == 'C' && "$CTMP1.$$$"[0] == '$';
    assert Latest(b, 0, "X.OBJ") == None && Latest(b, 0, "CRTCPM.OBJ") == None && Latest(b, 0, "LIBC.LIB") == None;
  }

  lemma PlainestReady()
    ensures LinkReady(Plainest(), PlainestFiles())
  {
    var b := Plainest();
    PlainestInputs();
    hide Inputs, Expected, Temps, Block;
    assert b.link.flgs == ["-Z"] && "-Z"[1] != "-O"[1] && b.link.segopt[1] != "-O"[1] && b.link.origin[1] != "-O"[1];
    PlainestOutputs();
  }

  lemma PlainestOutputs()
    ensures Outputs(Plainest()) && Target(Plainest()) == "X.COM"
  {
    var b := Plainest();
    assert b.names.ldotobj == "$L.OBJ" && |b.names.ldotobj| == 6 && |"X.COM"| == 5;
    assert b.link.single == "X.OBJ" && "X.OBJ"[2] == 'O' && "X.COM"[2] == 'C';
  }

  /** When nothing fails the program comes of the start-up code, the source and the library. */
  lemma PlainestMade()
    ensures Named(Plainest()) && Flow(Plainest(), Plainest().Items(), PlainestFiles()).Some?
    ensures Lookup(Flow(Plainest(), Plainest().Items(), PlainestFiles()).value, "X.COM")
      == Some(Linked([Ready("CRTCPM.OBJ"), Object("X.C", AsWritten, false, true), Ready("LIBC.LIB")]))
  {
    ToolsDistinct();
    TempsDistinct();
    PlainestThere();
    PlainestReady();
    PlainestOutputs();
    PlainestParts();
    assert PlainCross(Plainest()) && NoneLost(Plainest(), 1) && !Plainest().opt.keep && !Plainest().opt.reloc && Named(Plainest())
      && |Plainest().sources| == 1 by { hide Distinct, Block; }
    hide *;
    BuildFlows(Plainest(), PlainestFiles());
    ProductIs(Plainest(), PlainestFiles());
  }

  lemma ProductIs(b: Build, fs: Files)
    ensures Product(b, fs) == if b.opt.reloc then Converted(PartsOf(b, fs, Inputs(b))) else Linked(PartsOf(b, fs, Inputs(b)))
  {
  }

  lemma PlainestParts()
    ensures PartsOf(Plainest(), PlainestFiles(), Inputs(Plainest()))
      == [Ready("CRTCPM.OBJ"), Object("X.C", AsWritten, false, true), Ready("LIBC.LIB")]
  {
    var xs := ["CRTCPM.OBJ", "X.OBJ", "LIBC.LIB"];
    PlainestInputs();
    hide Inputs, Expected;
    assert xs[1..] == ["X.OBJ", "LIBC.LIB"] && xs[1..][1..] == ["LIBC.LIB"] && xs[1..][1..][1..] == [];
    assert PartsOf(Plainest(), PlainestFiles(), []) == [];
    assert PartsOf(Plainest(), PlainestFiles(), xs[1..][1..]) == [Ready("LIBC.LIB")];
  }

  /** One symbol file, to be made into an object file. */
  function Symbols(): Build {
    Build(Options(true, false, false, false, false, false, false, false, false, false), SampleNames(), Block,
          [Source("X.SYM", "X", SourceSym)], [],
          Link(["-Z"], "-Ptext=0,data,bss", "-C100H", "X.COM", ["CRTCPM.OBJ", "X.OBJ"], [], "LIBC.LIB", "X.OBJ", 1, None, ""))
  }

  lemma ToolsDistinct()
    ensures Distinct(Tools(SampleNames()))
  {
    var ts := Tools(SampleNames());
    assert ts == ["CPP", "P1", "CGEN", "OPTIM", "ZAS", "SYMTOAS", "LINK", "OBJTOHEX", "CREF"];
    assert ts[0][0] == 'C' && ts[1][0] == 'P' && ts[2][1] == 'G' && ts[3][1] == 'P' && ts[4][0] == 'Z' && ts[5][0] == 'S'
      && ts[6][0] == 'L' && ts[7][1] == 'B' && ts[8][1] == 'R' && ts[3][0] == 'O' && ts[7][0] == 'O' && ts[2][0] == 'C' && ts[8][0] == 'C';
    assert ts[0][1] == 'P';
  }

  lemma TempsDistinct()
    ensures Distinct(TempList(SampleNames())) && NoFlags(TempList(SampleNames()))
  {
    var ts := TempList(SampleNames());
    assert ts == ["$CTMP1.$$$", "$CTMP2.$$$", "$CTMP3.$$$", "$CTMP5.$$$", "$CTMP4.$$$", "CREF.TMP"];
    assert ts[0][5] == '1' && ts[1][5] == '2' && ts[2][5] == '3' && ts[3][5] == '5' && ts[4][5] == '4' && |ts[5]| == 8;
  }

  /** Everything is as the driver wants it, and yet the assembler is to read a file that nobody writes. */
  lemma SymbolsLost()
    ensures var b := Symbols(); var fs: Files := map["X.SYM" := Given(SourceSym, "X.SYM")];
      Named(b) && Sources(b, fs) && PlainCross(b) && b.opt.keep && Flow(b, b.Items(), fs) == None
  {
    var b := Symbols();
    var fs: Files := map["X.SYM" := Given(SourceSym, "X.SYM")];
    ToolsDistinct();
    TempsDistinct();
    hide Distinct, Block;
    SymbolsThere(b, fs);
    hide *;
    BuildFlows(b, fs);
    OneLost();
  }

  lemma OneLost()
    ensures !NoneLost(Symbols(), |Symbols().sources|)
  {
    assert Lost(Symbols(), Symbols().sources[0]);
  }

  lemma SymbolsThere(b: Build, fs: Files)
    requires b == Symbols() && fs == map["X.SYM" := Given(SourceSym, "X.SYM")]
    ensures Sources(b, fs)
  {
    var s := b.sources[0];
    assert "X" + ".OBJ" == "X.OBJ";
    assert |Result(b, s)| == 5 && Result(b, s)[2] == 'O' && s.path[2] == 'S';
    assert s.path !in Temps(b) && Result(b, s) !in Temps(b);
  }
}
