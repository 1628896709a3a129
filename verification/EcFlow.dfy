/** What the programs of a command file make of each other's files: each finds what it needs, and the object files and the
    program come of the right sources. */
module EcFlow {
  import opened Bytes
  import opened CommandFile
  import opened EcItems

  // ---------------------------------------------------------------- files and what is in them

  datatype How = AsWritten | ForSize | ForSpeed

  /** What is in a file, and of which source it has been made. */
  datatype Content =
    | Given(kind: Kind, path: string)
    | Preprocessed(of: string)
    | Intermediate(of: string)
    | Scratch
    | Assembly(of: string, how: How)
    | Object(of: string, how: How, jumps: bool, locals: bool)
    | Ready(name: string)
    | Info(sources: seq<string>)
    | Listing(sources: seq<string>)
    | Linked(parts: seq<Content>)
    | Converted(parts: seq<Content>)

  type Files = map<string, Content>

  function Lookup(fs: Files, f: string): Option<Content> {
    if f in fs then Some(fs[f]) else None
  }

  predicate Flag(s: string) {
    s != "" && s[0] == '-'
  }

  ghost predicate AllFlags(vec: seq<string>) {
    forall i :: 0 <= i < |vec| ==> Flag(vec[i])
  }

  ghost predicate NoFlags(vec: seq<string>) {
    forall i :: 0 <= i < |vec| ==> !Flag(vec[i])
  }

  /** The file names among the arguments of a program. */
  function FilesIn(vec: seq<string>): seq<string> {
    if vec == [] then [] else (if Flag(vec[0]) then [] else [vec[0]]) + FilesIn(vec[1..])
  }

  /** What follows the option `p` where it is given last. */
  function OptionOf(vec: seq<string>, p: string): Option<string> {
    if vec == [] then None
    else match OptionOf(vec[1..], p)
      case Some(s) => Some(s)
      case None => if p <= vec[0] then Some(vec[0][|p|..]) else None
  }

  // ---------------------------------------------------------------- programs

  datatype Tool = Cpp | Pass1 | Cgen | Optim | Assem | SymToAs | Linker | Objto | Cref

  function ToolOf(n: Names, path: string): Option<Tool> {
    if path == n.cpp then Some(Cpp) else if path == n.pass1 then Some(Pass1) else if path == n.cgen then Some(Cgen)
    else if path == n.optim then Some(Optim) else if path == n.assem then Some(Assem) else if path == n.symtoas then Some(SymToAs)
    else if path == n.linker then Some(Linker) else if path == n.objto then Some(Objto) else if path == n.cref then Some(Cref)
    else None
  }

  /** What a program that has one input and one output makes of the input, if it is of the kind it needs. */
  function Turned(tool: Tool, vec: seq<string>, c: Content): Option<Content> {
    match (tool, c)
    case (Cpp, Given(SourceC, path)) => Some(Preprocessed(path))
    case (Pass1, Preprocessed(of)) => Some(Intermediate(of))
    case (Cgen, Intermediate(of)) => Some(Assembly(of, AsWritten))
    case (Optim, Assembly(of, _)) => Some(Assembly(of, if "-F" in vec then ForSpeed else ForSize))
    case (Assem, Assembly(of, how)) => Some(Object(of, how, "-J" in vec, "-X" !in vec))
    case (Assem, Given(SourceAs, path)) => Some(Object(path, AsWritten, "-J" in vec, "-X" !in vec))
    case (SymToAs, Given(SourceSym, path)) => Some(Assembly(path, AsWritten))
    case (Objto, Linked(parts)) => Some(Converted(parts))
    case (Cref, Info(sources)) => Some(Listing(sources))
    case _ => None
  }

  function Turn(tool: Tool, vec: seq<string>, fs: Files, input: string, output: string): Option<Files> {
    if input !in fs then None
    else match Turned(tool, vec, fs[input])
      case None => None
      case Some(c) => Some(fs[output := c])
  }

  /** The linker takes object files and libraries. */
  predicate Linkable(fs: Files, f: string) {
    f in fs && (fs[f].Object? || fs[f].Ready?)
  }

  function Parts(fs: Files, xs: seq<string>): Option<seq<Content>> {
    if xs == [] then Some([])
    else if !Linkable(fs, xs[0]) then None
    else match Parts(fs, xs[1..])
      case None => None
      case Some(cs) => Some([fs[xs[0]]] + cs)
  }

  /** The first pass adds to the cross-reference information if it is told to. */
  function Noted(fs: Files, of: string, crf: Option<string>): Option<Files> {
    match crf
    case None => Some(fs)
    case Some(f) => if f in fs && fs[f].Info? then Some(fs[f := Info(fs[f].sources + [of])]) else None
  }

  /** A program with the arguments `vec`: None if it does not find what it needs. */
  function Use(tool: Tool, vec: seq<string>, fs: Files): Option<Files> {
    var xs := FilesIn(vec);
    match tool
    case Pass1 =>
      if |xs| != 3 then None
      else (match Turn(Pass1, vec, fs, xs[0], xs[1])
        case None => None
        case Some(g) => Noted(g[xs[2] := Scratch], fs[xs[0]].of, OptionOf(vec, "-C")))
    case Assem => if |xs| != 1 || OptionOf(vec, "-O") == None then None else Turn(Assem, vec, fs, xs[0], OptionOf(vec, "-O").value)
    case Cref => if |xs| != 1 || OptionOf(vec, "-o") == None then None else Turn(Cref, vec, fs, xs[0], OptionOf(vec, "-o").value)
    case Linker =>
      if OptionOf(vec, "-O") == None then None
      else (match Parts(fs, xs)
        case None => None
        case Some(parts) => Some(fs[OptionOf(vec, "-O").value := Linked(parts)]))
    case _ => if |xs| != 2 then None else Turn(tool, vec, fs, xs[0], xs[1])
  }

  /** An item, when no program fails. */
  function Step(b: Build, x: Item, fs: Files): Option<Files> {
    match x
    case Do(path, vec) =>
      if ToolOf(b.names, path) == None then None
      else (match Use(ToolOf(b.names, path).value, vec, fs)
        case None => None
        case Some(g) => Some(if Long(vec) then g - {b.names.redname} else g))
    case Erase(f) => Some(fs - {f})
    case Leave(f) => Some(fs - {f})
    case _ => Some(fs)
  }

  function Flow(b: Build, xs: seq<Item>, fs: Files): Option<Files> {
    if xs == [] then Some(fs)
    else match Step(b, xs[0], fs)
      case None => None
      case Some(g) => Flow(b, xs[1..], g)
  }

  lemma {:induction false} FlowSum(b: Build, xs: seq<Item>, ys: seq<Item>, fs: Files)
    ensures Flow(b, xs + ys, fs) == match Flow(b, xs, fs) case None => None case Some(g) => Flow(b, ys, g)
  {
    hide Step;
    if xs == [] {
      assert xs + ys == ys;
    } else {
      assert (xs + ys)[1..] == xs[1..] + ys && (xs + ys)[0] == xs[0];
      if Step(b, xs[0], fs).Some? { FlowSum(b, xs[1..], ys, Step(b, xs[0], fs).value); }
    }
  }

  lemma FlowOne(b: Build, x: Item, fs: Files)
    ensures Flow(b, [x], fs) == Step(b, x, fs)
  {
    hide Step;
    assert [x][1..] == [];
    if Step(b, x, fs).Some? { assert Flow(b, [], Step(b, x, fs).value) == Step(b, x, fs); }
  }

  // ---------------------------------------------------------------- arguments

  lemma {:induction false} FilesInSum(v: seq<string>, w: seq<string>)
    ensures FilesIn(v + w) == FilesIn(v) + FilesIn(w)
  {
    if v == [] {
      assert v + w == w;
    } else {
      assert (v + w)[1..] == v[1..] + w;
      FilesInSum(v[1..], w);
    }
  }

  lemma {:induction false} FlagsOnly(v: seq<string>)
    requires AllFlags(v)
    ensures FilesIn(v) == []
  {
    if v != [] { FlagsOnly(v[1..]); }
  }

  lemma {:induction false} FilesOnly(v: seq<string>)
    requires NoFlags(v)
    ensures FilesIn(v) == v
  {
    if v != [] { FilesOnly(v[1..]); }
  }

  lemma {:induction false} OptionSum(v: seq<string>, w: seq<string>, p: string)
    ensures OptionOf(v + w, p) == if OptionOf(w, p).Some? then OptionOf(w, p) else OptionOf(v, p)
  {
    if v == [] {
      assert v + w == w;
    } else {
      assert (v + w)[1..] == v[1..] + w;
      OptionSum(v[1..], w, p);
    }
  }

  lemma {:induction false} NoOption(v: seq<string>, p: string)
    requires forall i :: 0 <= i < |v| ==> !(p <= v[i])
    ensures OptionOf(v, p) == None
  {
    if v != [] { NoOption(v[1..], p); }
  }

  // ---------------------------------------------------------------- one program

  /** The files of the driver itself. */
  function Temps(b: Build): set<string> {
    {b.names.tmpf1, b.names.tmpf2, b.names.tmpf3, b.names.tmpf5, b.names.redname, b.names.crtmp}
  }

  function TempList(n: Names): seq<string> {
    [n.tmpf1, n.tmpf2, n.tmpf3, n.tmpf5, n.redname, n.crtmp]
  }

  function Tools(n: Names): seq<string> {
    [n.cpp, n.pass1, n.cgen, n.optim, n.assem, n.symtoas, n.linker, n.objto, n.cref]
  }

  ghost predicate Distinct(xs: seq<string>) {
    forall i, j :: 0 <= i < j < |xs| ==> xs[i] != xs[j]
  }

  /** The names of programs and temporary files are told apart, and -I, -U and -D are options. */
  ghost predicate Named(b: Build) {
    Distinct(TempList(b.names)) && NoFlags(TempList(b.names)) && Distinct(Tools(b.names)) && AllFlags(b.iuds)
  }

  predicate PlainName(s: string) {
    s != "" && !Flag(s)
  }

  /** `g` is `fs` with one file written, whatever has become of the file for arguments. */
  ghost predicate Wrote(b: Build, fs: Files, g: Files, o: string, c: Content) {
    forall f :: f != b.names.redname ==> Lookup(g, f) == if f == o then Some(c) else Lookup(fs, f)
  }

  predicate OneToOne(tool: Tool) {
    tool.Cpp? || tool.Cgen? || tool.Optim? || tool.SymToAs? || tool.Objto?
  }

  lemma ToolsAre(b: Build)
    requires Named(b)
    ensures var n := b.names;
      && ToolOf(n, n.cpp) == Some(Cpp) && ToolOf(n, n.pass1) == Some(Pass1) && ToolOf(n, n.cgen) == Some(Cgen)
      && ToolOf(n, n.optim) == Some(Optim) && ToolOf(n, n.assem) == Some(Assem) && ToolOf(n, n.symtoas) == Some(SymToAs)
      && ToolOf(n, n.linker) == Some(Linker) && ToolOf(n, n.objto) == Some(Objto) && ToolOf(n, n.cref) == Some(Cref)
  {
    var ts := Tools(b.names);
    assert ts[0] == b.names.cpp && ts[1] == b.names.pass1 && ts[2] == b.names.cgen && ts[3] == b.names.optim && ts[4] == b.names.assem
      && ts[5] == b.names.symtoas && ts[6] == b.names.linker && ts[7] == b.names.objto && ts[8] == b.names.cref;
  }

  /** Flags, an input and an output. */
  lemma Converts(b: Build, path: string, tool: Tool, flags: seq<string>, a: string, o: string, fs: Files) returns (g: Files)
    requires ToolOf(b.names, path) == Some(tool) && OneToOne(tool) && AllFlags(flags) && !Flag(a) && !Flag(o)
    requires a in fs && Turned(tool, flags + [a, o], fs[a]).Some?
    ensures Step(b, Do(path, flags + [a, o]), fs) == Some(g) && Wrote(b, fs, g, o, Turned(tool, flags + [a, o], fs[a]).value)
  {
    var vec := flags + [a, o];
    FilesInSum(flags, [a, o]);
    FlagsOnly(flags);
    FilesOnly([a, o]);
    hide FilesIn, Turned, Long;
    g := Step(b, Do(path, vec), fs).value;
  }

  /** The assembler: flags, -O with the output, and the input. */
  lemma Assembles(b: Build, flags: seq<string>, out: string, a: string, fs: Files) returns (g: Files)
    requires ToolOf(b.names, b.names.assem) == Some(Assem) && AllFlags(flags) && !Flag(a)
    requires a in fs && Turned(Assem, flags + ["-O" + out, a], fs[a]).Some?
    ensures Step(b, Do(b.names.assem, flags + ["-O" + out, a]), fs) == Some(g)
    ensures Wrote(b, fs, g, out, Turned(Assem, flags + ["-O" + out, a], fs[a]).value)
  {
    var vec := flags + ["-O" + out, a];
    FilesInSum(flags, ["-O" + out, a]);
    FlagsOnly(flags);
    LastTwo("-O" + out, a);
    OptionSum(flags, ["-O" + out, a], "-O");
    OutputLast(out, a);
    hide FilesIn, OptionOf, Turned, Long;
    g := Step(b, Do(b.names.assem, vec), fs).value;
  }

  lemma LastTwo(x: string, a: string)
    requires Flag(x) && !Flag(a)
    ensures FilesIn([x, a]) == [a]
  {
    assert [x, a][1..] == [a];
    assert [a][1..] == [];
    assert FilesIn([]) == [];
  }

  lemma OutputLast(out: string, a: string)
    requires !Flag(a)
    ensures OptionOf(["-O" + out, a], "-O") == Some(out)
  {
    assert ["-O" + out, a][1..] == [a];
    assert [a][1..] == [];
    assert OptionOf([], "-O") == None;
    assert "-O" <= "-O" + out && ("-O" + out)[2..] == out;
  }

  /** What the first pass leaves in the file `f`. */
  function Passed(b: Build, fs: Files, of: string, f: string): Option<Content> {
    if f == b.names.tmpf2 then Some(Intermediate(of))
    else if f == b.names.tmpf3 then Some(Scratch)
    else if f == b.names.crtmp && b.opt.xref && f in fs && fs[f].Info? then Some(Info(fs[f].sources + [of]))
    else Lookup(fs, f)
  }

  /** The first pass: flags, an input, an output and a scratch file. */
  lemma Passes(b: Build, flags: seq<string>, fs: Files) returns (g: Files)
    requires Named(b) && AllFlags(flags) && b.names.tmpf1 in fs && fs[b.names.tmpf1].Preprocessed?
    requires OptionOf(flags, "-C") == if b.opt.xref then Some(b.names.crtmp) else None
    requires b.opt.xref ==> b.names.crtmp in fs && fs[b.names.crtmp].Info?
    ensures Step(b, Do(b.names.pass1, flags + [b.names.tmpf1, b.names.tmpf2, b.names.tmpf3]), fs) == Some(g)
    ensures forall f :: f != b.names.redname ==> Lookup(g, f) == Passed(b, fs, fs[b.names.tmpf1].of, f)
  {
    var n := b.names;
    var vec := flags + [n.tmpf1, n.tmpf2, n.tmpf3];
    TempsApart(b);
    ToolsAre(b);
    PassArguments(b, flags);
    assert FilesIn(vec)[0] == n.tmpf1 && FilesIn(vec)[1] == n.tmpf2 && FilesIn(vec)[2] == n.tmpf3;
    hide FilesIn, OptionOf, Long, Named, ToolOf;
    g := Use(Pass1, vec, fs).value;
    if Long(vec) { g := g - {n.redname}; }
  }

  lemma PassArguments(b: Build, flags: seq<string>)
    requires Named(b) && AllFlags(flags)
    ensures var n := b.names; var vec := flags + [n.tmpf1, n.tmpf2, n.tmpf3];
      FilesIn(vec) == [n.tmpf1, n.tmpf2, n.tmpf3] && OptionOf(vec, "-C") == OptionOf(flags, "-C")
  {
    var xs := [b.names.tmpf1, b.names.tmpf2, b.names.tmpf3];
    TempsApart(b);
    FilesInSum(flags, xs);
    FlagsOnly(flags);
    FilesOnly(xs);
    OptionSum(flags, xs, "-C");
    NoOption(xs, "-C");
  }

  lemma TempsApart(b: Build)
    requires Named(b)
    ensures var n := b.names;
      && !Flag(n.tmpf1) && !Flag(n.tmpf2) && !Flag(n.tmpf3) && !Flag(n.tmpf5) && !Flag(n.redname) && !Flag(n.crtmp)
      && n.tmpf1 != n.tmpf2 && n.tmpf1 != n.tmpf3 && n.tmpf1 != n.tmpf5 && n.tmpf1 != n.redname && n.tmpf1 != n.crtmp
      && n.tmpf2 != n.tmpf3 && n.tmpf2 != n.tmpf5 && n.tmpf2 != n.redname && n.tmpf2 != n.crtmp
      && n.tmpf3 != n.tmpf5 && n.tmpf3 != n.redname && n.tmpf3 != n.crtmp
      && n.tmpf5 != n.redname && n.tmpf5 != n.crtmp && n.redname != n.crtmp
  {
    var ts := TempList(b.names);
    assert ts[0] == b.names.tmpf1 && ts[1] == b.names.tmpf2 && ts[2] == b.names.tmpf3 && ts[3] == b.names.tmpf5
      && ts[4] == b.names.redname && ts[5] == b.names.crtmp;
  }

  // ---------------------------------------------------------------- one source file

  /** The file a source is turned into. */
  function Result(b: Build, s: Source): string {
    s.stem + if s.kind.SourceC? && b.opt.keepas then ".AS" else ".OBJ"
  }

  /** What it is to have in it. */
  function Outcome(b: Build, s: Source): Content {
    var how := if !s.kind.SourceC? || !b.opt.optimize then AsWritten else if b.opt.speed then ForSpeed else ForSize;
    if s.kind.SourceC? && b.opt.keepas then Assembly(s.path, how)
    else Object(s.path, how, b.opt.optimize && !b.opt.speed, !b.opt.nolocal)
  }

  ghost predicate PlainSource(b: Build, s: Source) {
    PlainName(s.path) && PlainName(s.stem) && s.path !in Temps(b) && Result(b, s) !in Temps(b)
  }

  /** The source and the cross-reference information are there. */
  ghost predicate Present(b: Build, s: Source, fs: Files) {
    Lookup(fs, s.path) == Some(Given(s.kind, s.path)) && HasInfo(b, fs)
  }

  predicate HasInfo(b: Build, fs: Files) {
    b.opt.xref ==> b.names.crtmp in fs && fs[b.names.crtmp].Info?
  }

  /** The driver's own files apart, only the result is another. */
  ghost predicate Yields(b: Build, s: Source, fs: Files, g: Files) {
    forall f :: f !in Temps(b) ==> Lookup(g, f) == if f == Result(b, s) then Some(Outcome(b, s)) else Lookup(fs, f)
  }

  /** The cross-reference information covers the C files. */
  ghost predicate Traced(b: Build, s: Source, fs: Files, g: Files)
    requires HasInfo(b, fs)
  {
    b.opt.xref ==>
      Lookup(g, b.names.crtmp) == Some(Info(fs[b.names.crtmp].sources + if s.kind.SourceC? then [s.path] else []))
  }

  /** `g` differs from `fs` in the files `w` at most. */
  ghost predicate Only(fs: Files, g: Files, w: set<string>) {
    forall f :: f !in w ==> Lookup(g, f) == Lookup(fs, f)
  }

  lemma PreprocessFlow(b: Build, s: Source, fs: Files) returns (g: Files)
    requires Named(b) && PlainSource(b, s) && s.kind.SourceC? && Present(b, s, fs)
    ensures Step(b, b.Preprocessing(s), fs) == Some(g) && Wrote(b, fs, g, b.names.tmpf1, Preprocessed(s.path))
  {
    TempsApart(b);
    ToolsAre(b);
    hide Distinct, Step;
    g := Converts(b, b.names.cpp, Cpp, b.iuds, s.path, b.names.tmpf1, fs);
  }

  lemma PassOptions(b: Build)
    requires Named(b)
    ensures AllFlags(b.PassFlags()) && OptionOf(b.PassFlags(), "-C") == if b.opt.xref then Some(b.names.crtmp) else None
  {
    var v, c := if b.opt.keepas && !b.opt.optimize then ["-S"] else [], "-C" + b.names.crtmp;
    var w := if b.opt.xref then [c] else [];
    assert b.PassFlags() == v + w;
    assert "-S"[1] != "-C"[1];
    NoOption(v, "-C");
    OptionSum(v, w, "-C");
    CrossOption(b.names.crtmp);
    hide OptionOf;
  }

  lemma CrossOption(f: string)
    ensures OptionOf(["-C" + f], "-C") == Some(f) && OptionOf([], "-C") == None
  {
    var c: string := "-C" + f;
    assert [c][1..] == [];
    assert "-C" <= c && c[2..] == f;
  }

  /** Preprocessor and first pass. */
  lemma PassFlow(b: Build, s: Source, fs: Files) returns (g: Files)
    requires Named(b) && PlainSource(b, s) && s.kind.SourceC? && Present(b, s, fs)
    ensures Flow(b, b.PassItems(s), fs) == Some(g)
    ensures Lookup(g, b.names.tmpf2) == Some(Intermediate(s.path)) && Traced(b, s, fs, g) && HasInfo(b, g)
    ensures Only(fs, g, {b.names.tmpf1, b.names.tmpf2, b.names.tmpf3, b.names.redname, b.names.crtmp})
  {
    var h := PreprocessFlow(b, s, fs);
    PassOptions(b);
    TempsApart(b);
    hide Named, PlainSource, Step, Long, Flow;
    assert Lookup(h, b.names.tmpf1) == Some(Preprocessed(s.path));
    assert Lookup(h, b.names.crtmp) == Lookup(fs, b.names.crtmp);
    g := Passes(b, b.PassFlags(), h);
    FlowTwo(b, b.Preprocessing(s), b.FirstPassing(), fs, h);
    assert Lookup(g, b.names.tmpf2) == Passed(b, h, s.path, b.names.tmpf2);
    assert Lookup(g, b.names.crtmp) == Passed(b, h, s.path, b.names.crtmp);
  }

  lemma FlowTwo(b: Build, x: Item, y: Item, fs: Files, h: Files)
    requires Step(b, x, fs) == Some(h)
    ensures Flow(b, [x, y], fs) == Step(b, y, h)
  {
    hide Step;
    assert [x, y][1..] == [y];
    FlowOne(b, y, h);
  }

  lemma GenerateFlow(b: Build, s: Source, out: string, fs: Files) returns (g: Files)
    requires Named(b) && !Flag(out) && Lookup(fs, b.names.tmpf2) == Some(Intermediate(s.path))
    ensures Step(b, Do(b.names.cgen, [b.names.tmpf2, out]), fs) == Some(g) && Wrote(b, fs, g, out, Assembly(s.path, AsWritten))
  {
    TempsApart(b);
    ToolsAre(b);
    hide Distinct, Step;
    assert [] + [b.names.tmpf2, out] == [b.names.tmpf2, out];
    g := Converts(b, b.names.cgen, Cgen, [], b.names.tmpf2, out, fs);
  }

  lemma OptimizeFlow(b: Build, s: Source, fs: Files) returns (g: Files)
    requires Named(b) && PlainSource(b, s) && Lookup(fs, b.names.tmpf1) == Some(Assembly(s.path, AsWritten))
    ensures var out := if b.opt.keepas then s.stem + ".AS" else b.names.tmpf2;
      && Step(b, b.Optimizing(s), fs) == Some(g)
      && Wrote(b, fs, g, out, Assembly(s.path, if b.opt.speed then ForSpeed else ForSize))
  {
    var out := if b.opt.keepas then s.stem + ".AS" else b.names.tmpf2;
    TempsApart(b);
    ToolsAre(b);
    var vec := b.SpeedFlag() + [b.names.tmpf1, out];
    if b.opt.speed { assert vec[0] == "-F"; } else { assert vec == [b.names.tmpf1, out]; }
    assert "-F" in vec <==> b.opt.speed;
    hide Distinct, Step;
    g := Converts(b, b.names.optim, Optim, b.SpeedFlag(), b.names.tmpf1, out, fs);
  }

  /** The assembler's flags in compile, with -N, and elsewhere. */
  ghost predicate AssemblerFlags(b: Build, flags: seq<string>) {
    AllFlags(flags) && ("-J" in flags <==> b.opt.optimize && !b.opt.speed) && ("-X" in flags <==> b.opt.nolocal)
  }

  lemma FlagsOfFinal(b: Build)
    ensures AssemblerFlags(b, b.LocalFlag() + b.JumpFlag() + ["-N"])
    ensures AssemblerFlags(b, b.JumpFlag() + b.LocalFlag())
  {
    assert "-N"[1] != "-J"[1] && "-N"[1] != "-X"[1] && "-J"[1] != "-X"[1];
  }

  lemma AssembleFlow(b: Build, s: Source, flags: seq<string>, a: string, fs: Files) returns (g: Files)
    requires Named(b) && AssemblerFlags(b, flags) && !Flag(a) && a in fs
    requires (fs[a].Assembly? && fs[a].of == s.path) || fs[a] == Given(SourceAs, s.path)
    ensures var out := s.stem + ".OBJ"; var how := if fs[a].Assembly? then fs[a].how else AsWritten;
      && Step(b, Do(b.names.assem, flags + ["-O" + out, a]), fs) == Some(g)
      && Wrote(b, fs, g, out, Object(s.path, how, b.opt.optimize && !b.opt.speed, !b.opt.nolocal))
  {
    ToolsAre(b);
    FlagIn(flags, s.stem + ".OBJ", a, "-J");
    FlagIn(flags, s.stem + ".OBJ", a, "-X");
    hide Step, Named, ToolOf;
    g := Assembles(b, flags, s.stem + ".OBJ", a, fs);
  }

  lemma FlagIn(flags: seq<string>, out: string, a: string, f: string)
    requires !Flag(a) && f in ["-J", "-X"]
    ensures f in flags + ["-O" + out, a] <==> f in flags
  {
    var x := "-O" + out;
    assert x[1] == 'O' && f[1] != 'O';
    assert f[0] == '-';
    assert f !in [x, a];
  }

  lemma FinalFlow(b: Build, s: Source, a: string, fs: Files) returns (g: Files)
    requires Named(b) && !Flag(a) && a in fs && fs[a].Assembly? && fs[a].of == s.path
    ensures Step(b, b.Final(s, a), fs) == Some(g)
    ensures Wrote(b, fs, g, s.stem + ".OBJ", Object(s.path, fs[a].how, b.opt.optimize && !b.opt.speed, !b.opt.nolocal))
  {
    var flags, out := b.LocalFlag() + b.JumpFlag() + ["-N"], s.stem + ".OBJ";
    FlagsOfFinal(b);
    assert "-O" + s.stem + ".OBJ" == "-O" + out;
    assert b.LocalFlag() + b.JumpFlag() + ["-N", "-O" + out, a] == flags + ["-O" + out, a];
    hide b.LocalFlag, b.JumpFlag, Step, AssemblerFlags;
    g := AssembleFlow(b, s, flags, a, fs);
  }

  lemma AssemblingFlow(b: Build, s: Source, a: string, fs: Files) returns (g: Files)
    requires Named(b) && !Flag(a) && a in fs && (fs[a] == Assembly(s.path, AsWritten) || fs[a] == Given(SourceAs, s.path))
    ensures Step(b, b.Assembling(s, a), fs) == Some(g)
    ensures Wrote(b, fs, g, s.stem + ".OBJ", Object(s.path, AsWritten, b.opt.optimize && !b.opt.speed, !b.opt.nolocal))
  {
    var flags, out := b.JumpFlag() + b.LocalFlag(), s.stem + ".OBJ";
    FlagsOfFinal(b);
    assert "-O" + s.stem + ".OBJ" == "-O" + out;
    assert b.JumpFlag() + b.LocalFlag() + ["-O" + out, a] == flags + ["-O" + out, a];
    hide b.LocalFlag, b.JumpFlag, Step, AssemblerFlags;
    g := AssembleFlow(b, s, flags, a, fs);
  }

  /** The files that optimizer and assembler work on. */
  function Workfiles(b: Build, s: Source): set<string> {
    {b.names.tmpf1, b.names.tmpf2, b.names.redname, Result(b, s)}
  }

  lemma WroteOnly(b: Build, fs: Files, g: Files, o: string, c: Content, w: set<string>)
    requires Wrote(b, fs, g, o, c) && o in w && b.names.redname in w
    ensures Only(fs, g, w)
  {
  }

  lemma OnlyTwice(fs: Files, g: Files, h: Files, w: set<string>)
    requires Only(fs, g, w) && Only(g, h, w)
    ensures Only(fs, h, w)
  {
  }

  /** What comes after the code generator has written to the first temporary file. */
  lemma LastFlow(b: Build, s: Source, fs: Files) returns (g: Files)
    requires Named(b) && PlainSource(b, s) && s.kind.SourceC? && !b.SourceWanted()
    requires Lookup(fs, b.names.tmpf1) == Some(Assembly(s.path, AsWritten))
    ensures Flow(b, b.LastItems(s), fs) == Some(g)
    ensures Only(fs, g, Workfiles(b, s)) && Lookup(g, Result(b, s)) == Some(Outcome(b, s))
  {
    TempsApart(b);
    b.LastIs(s);
    hide Named, Step, Flow, b.LastItems;
    if !b.opt.optimize {
      g := FinalFlow(b, s, b.names.tmpf1, fs);
      FlowOne(b, b.Final(s, b.names.tmpf1), fs);
    } else {
      var h := OptimizeFlow(b, s, fs);
      if b.opt.keepas {
        g := h;
        FlowOne(b, b.Optimizing(s), fs);
      } else {
        assert Lookup(h, b.names.tmpf2) == Some(Assembly(s.path, if b.opt.speed then ForSpeed else ForSize));
        g := FinalFlow(b, s, b.names.tmpf2, h);
        FlowTwo(b, b.Optimizing(s), b.Final(s, b.names.tmpf2), fs, h);
      }
    }
  }

  /** The code generator and what comes after. */
  lemma CodeFlow(b: Build, s: Source, fs: Files) returns (g: Files)
    requires Named(b) && PlainSource(b, s) && s.kind.SourceC? && Lookup(fs, b.names.tmpf2) == Some(Intermediate(s.path))
    ensures Flow(b, b.CodeItems(s), fs) == Some(g)
    ensures Only(fs, g, Workfiles(b, s)) && Lookup(g, Result(b, s)) == Some(Outcome(b, s))
  {
    TempsApart(b);
    hide Named, Step, Flow, b.LastItems;
    var out := if b.SourceWanted() then s.stem + ".AS" else b.names.tmpf1;
    var x := Do(b.names.cgen, [b.names.tmpf2, out]);
    var h := GenerateFlow(b, s, out, fs);
    WroteOnly(b, fs, h, out, Assembly(s.path, AsWritten), Workfiles(b, s));
    if b.SourceWanted() {
      g := h;
      FlowOne(b, x, fs);
      assert b.CodeItems(s) == [x];
    } else {
      assert Lookup(h, b.names.tmpf1) == Some(Assembly(s.path, AsWritten));
      g := LastFlow(b, s, h);
      OnlyTwice(fs, h, g, Workfiles(b, s));
      FlowFirst(b, x, b.LastItems(s), fs, h);
      assert b.CodeItems(s) == [x] + b.LastItems(s);
    }
  }

  lemma FlowFirst(b: Build, x: Item, more: seq<Item>, fs: Files, h: Files)
    requires Step(b, x, fs) == Some(h)
    ensures Flow(b, [x] + more, fs) == Flow(b, more, h)
  {
    hide Step;
    assert ([x] + more)[1..] == more;
  }

  /** A C file: whatever the flags, each program finds what it needs and the result is right. */
  lemma CompileFlow(b: Build, s: Source, fs: Files) returns (g: Files)
    requires Named(b) && PlainSource(b, s) && s.kind.SourceC? && Present(b, s, fs)
    ensures Flow(b, b.CompileItems(s), fs) == Some(g)
    ensures Yields(b, s, fs, g) && Traced(b, s, fs, g) && HasInfo(b, g) && Lookup(g, b.names.tmpf5) == Lookup(fs, b.names.tmpf5)
  {
    hide *;
    var h := PassFlow(b, s, fs);
    g := CodeFlow(b, s, h);
    b.CompileIs(s);
    FlowSum(b, b.PassItems(s), b.CodeItems(s), fs);
    InfoPresent(b, s, fs);
    CompileYields(b, s, fs, h, g);
  }

  lemma InfoPresent(b: Build, s: Source, fs: Files)
    requires Present(b, s, fs)
    ensures HasInfo(b, fs)
  {
  }

  lemma CompileYields(b: Build, s: Source, fs: Files, h: Files, g: Files)
    requires Named(b) && PlainSource(b, s) && HasInfo(b, fs) && Traced(b, s, fs, h) && HasInfo(b, h)
    requires Only(fs, h, {b.names.tmpf1, b.names.tmpf2, b.names.tmpf3, b.names.redname, b.names.crtmp})
    requires Only(h, g, Workfiles(b, s)) && Lookup(g, Result(b, s)) == Some(Outcome(b, s))
    ensures Yields(b, s, fs, g) && Traced(b, s, fs, g) && HasInfo(b, g) && Lookup(g, b.names.tmpf5) == Lookup(fs, b.names.tmpf5)
  {
    TempsApart(b);
    hide Named, Outcome, Result;
    assert Lookup(g, b.names.crtmp) == Lookup(h, b.names.crtmp);
    assert Lookup(g, b.names.tmpf5) == Lookup(h, b.names.tmpf5);
  }

  lemma AnnouncedFlow(b: Build, s: Source, fs: Files, more: seq<Item>)
    ensures Flow(b, b.Announcement(s) + more, fs) == Flow(b, more, fs)
  {
    FlowSum(b, b.Announcement(s), more, fs);
    if |b.sources| > 1 {
      FlowOne(b, Say(s.path), fs);
    }
  }

  /** An assembler file, or one made from a symbol file. */
  lemma AssembledFlow(b: Build, s: Source, a: string, fs: Files) returns (g: Files)
    requires Named(b) && PlainSource(b, s) && !s.kind.SourceC? && HasInfo(b, fs)
    requires !Flag(a) && a in fs && (fs[a] == Assembly(s.path, AsWritten) || fs[a] == Given(SourceAs, s.path))
    ensures Flow(b, b.AssembleItems(s, a), fs) == Some(g)
    ensures Yields(b, s, fs, g) && Traced(b, s, fs, g) && HasInfo(b, g) && Lookup(g, b.names.tmpf5) == Lookup(fs, b.names.tmpf5)
  {
    TempsApart(b);
    hide Step, Flow, Named, b.Assembling, b.Announcement;
    g := AssemblingFlow(b, s, a, fs);
    AnnouncedFlow(b, s, fs, [b.Assembling(s, a)]);
    FlowOne(b, b.Assembling(s, a), fs);
    assert Lookup(g, b.names.crtmp) == Lookup(fs, b.names.crtmp);
    if b.opt.xref { assert fs[b.names.crtmp].sources + [] == fs[b.names.crtmp].sources; }
  }

  lemma ConvertFlow(b: Build, s: Source, fs: Files) returns (g: Files)
    requires Named(b) && PlainSource(b, s) && s.kind.SourceSym? && b.opt.overlay && Present(b, s, fs)
    ensures Flow(b, b.ConvertItems(s), fs) == Some(g) && Wrote(b, fs, g, b.names.tmpf5, Assembly(s.path, AsWritten))
  {
    var n := b.names;
    TempsApart(b);
    ToolsAre(b);
    hide Step, Flow, Named, Distinct;
    assert [] + [s.path, n.tmpf5] == [s.path, n.tmpf5];
    g := Converts(b, n.symtoas, SymToAs, [], s.path, n.tmpf5, fs);
    FlowTwo(b, Do(n.symtoas, [s.path, n.tmpf5]), Mark(Trap), fs, g);
    MarkFlow(b, Trap, g);
  }

  lemma MarkFlow(b: Build, c: Command, fs: Files)
    ensures Step(b, Mark(c), fs) == Some(fs)
  {
  }

  /** A symbol file, with overlays. */
  lemma SymbolFlow(b: Build, s: Source, fs: Files) returns (g: Files)
    requires Named(b) && PlainSource(b, s) && s.kind.SourceSym? && b.opt.overlay && Present(b, s, fs)
    ensures Flow(b, b.Body(s), fs) == Some(g) && Yields(b, s, fs, g) && Traced(b, s, fs, g) && HasInfo(b, g)
  {
    var h := ConvertFlow(b, s, fs);
    TempsApart(b);
    assert Lookup(h, b.names.crtmp) == Lookup(fs, b.names.crtmp);
    assert Lookup(h, b.names.tmpf5) == Some(Assembly(s.path, AsWritten));
    g := AssembledFlow(b, s, b.names.tmpf5, h);
    b.BodyIs(s);
    hide Step, Flow, Named, b.ConvertItems, b.AssembleItems, b.Body, Outcome, Result;
    FlowSum(b, b.ConvertItems(s), b.AssembleItems(s, b.names.tmpf5), fs);
  }

  /** Without them nothing writes the file that the assembler is to read. */
  lemma SymbolLost(b: Build, s: Source, fs: Files)
    requires Named(b) && s.kind.SourceSym? && !b.opt.overlay && b.names.tmpf5 !in fs
    ensures Flow(b, b.Body(s), fs) == None
  {
    var a := b.names.tmpf5;
    b.BodyIs(s);
    AssemblerLost(b, s, fs);
    assert b.ConvertItems(s) + b.AssembleItems(s, a) == b.Announcement(s) + [b.Assembling(s, a)];
    hide Step, Flow, b.Body, b.Announcement, b.Assembling;
    AnnouncedFlow(b, s, fs, [b.Assembling(s, a)]);
    FlowOne(b, b.Assembling(s, a), fs);
  }

  lemma AssemblerLost(b: Build, s: Source, fs: Files)
    requires Named(b) && b.names.tmpf5 !in fs
    ensures Step(b, b.Assembling(s, b.names.tmpf5), fs) == None
  {
    var flags, out, a := b.JumpFlag() + b.LocalFlag(), s.stem + ".OBJ", b.names.tmpf5;
    TempsApart(b);
    ToolsAre(b);
    FlagsOfFinal(b);
    assert "-O" + s.stem + ".OBJ" == "-O" + out;
    assert b.JumpFlag() + b.LocalFlag() + ["-O" + out, a] == flags + ["-O" + out, a];
    FilesInSum(flags, ["-O" + out, a]);
    FlagsOnly(flags);
    LastTwo("-O" + out, a);
    hide FilesIn, OptionOf, Turned, Long, b.JumpFlag, b.LocalFlag, ToolOf, Named;
  }

  /** Any source file but a symbol file without overlays. */
  lemma SourceFlow(b: Build, s: Source, fs: Files) returns (g: Files)
    requires Named(b) && PlainSource(b, s) && !s.kind.SourceOther? && (s.kind.SourceSym? ==> b.opt.overlay) && Present(b, s, fs)
    ensures Flow(b, b.Body(s), fs) == Some(g) && Yields(b, s, fs, g) && Traced(b, s, fs, g) && HasInfo(b, g)
    ensures !b.opt.overlay ==> Lookup(g, b.names.tmpf5) == Lookup(fs, b.names.tmpf5)
  {
    b.BodyIs(s);
    InfoPresent(b, s, fs);
    match s.kind
    case SourceC =>
      hide *;
      g := CompileFlow(b, s, fs);
      AnnouncedFlow(b, s, fs, b.CompileItems(s));
    case SourceAs =>
      PlainPath(b, s);
      PathThere(b, s, fs);
      hide *;
      g := AssembledFlow(b, s, s.path, fs);
    case SourceSym =>
      hide *;
      g := SymbolFlow(b, s, fs);
  }

  lemma PlainPath(b: Build, s: Source)
    requires PlainSource(b, s)
    ensures !Flag(s.path)
  {
  }

  lemma PathThere(b: Build, s: Source, fs: Files)
    requires Present(b, s, fs)
    ensures s.path in fs && fs[s.path] == Given(s.kind, s.path)
  {
  }

  // ---------------------------------------------------------------- all source files

  /** What one of the first `n` sources, the last that concerns it, has been turned into in the file `f`. */
  function Latest(b: Build, n: nat, f: string): Option<Content>
    requires n <= |b.sources|
  {
    if n == 0 then None
    else if f == Result(b, b.sources[n - 1]) then Some(Outcome(b, b.sources[n - 1]))
    else Latest(b, n - 1, f)
  }

  function Expected(b: Build, n: nat, fs: Files, f: string): Option<Content>
    requires n <= |b.sources|
  {
    if Latest(b, n, f).Some? then Latest(b, n, f) else Lookup(fs, f)
  }

  /** The C files among the first `n` sources. */
  function Paths(b: Build, n: nat): seq<string>
    requires n <= |b.sources|
  {
    if n == 0 then [] else Paths(b, n - 1) + if b.sources[n - 1].kind.SourceC? then [b.sources[n - 1].path] else []
  }

  /** The source files are there, under names that are no others, and the cross-reference file is empty. */
  ghost predicate Sources(b: Build, fs: Files) {
    && (forall i :: 0 <= i < |b.sources| ==> PlainSource(b, b.sources[i]) && !b.sources[i].kind.SourceOther?)
    && (forall i :: 0 <= i < |b.sources| ==> Lookup(fs, b.sources[i].path) == Some(Given(b.sources[i].kind, b.sources[i].path)))
    && (forall i, j :: 0 <= i < |b.sources| && 0 <= j < |b.sources| ==> b.sources[i].path != Result(b, b.sources[j]))
    && (b.opt.xref ==> Lookup(fs, b.names.crtmp) == Some(Info([])))
    && b.names.tmpf5 !in fs
  }

  /** The files when the first `n` sources have been dealt with. */
  ghost predicate Reached(b: Build, n: nat, fs: Files, g: Files)
    requires n <= |b.sources|
  {
    && (forall f :: f !in Temps(b) ==> Lookup(g, f) == Expected(b, n, fs, f))
    && (b.opt.xref ==> Lookup(g, b.names.crtmp) == Some(Info(Paths(b, n))))
    && (!b.opt.overlay ==> b.names.tmpf5 !in g)
  }

  /** A symbol file cannot be dealt with unless there are overlays. */
  predicate Lost(b: Build, s: Source) {
    s.kind.SourceSym? && !b.opt.overlay
  }

  ghost predicate NoneLost(b: Build, n: nat)
    requires n <= |b.sources|
  {
    forall i :: 0 <= i < n ==> !Lost(b, b.sources[i])
  }

  lemma {:induction false} PathKept(b: Build, n: nat, f: string)
    requires n <= |b.sources| && forall j :: 0 <= j < n ==> f != Result(b, b.sources[j])
    ensures Latest(b, n, f) == None
  {
    if n > 0 { PathKept(b, n - 1, f); }
  }

  lemma StillPresent(b: Build, n: nat, fs: Files, g: Files)
    requires Sources(b, fs) && n < |b.sources| && Reached(b, n, fs, g)
    ensures Present(b, b.sources[n], g)
  {
    var s := b.sources[n];
    hide Result, Temps;
    assert PlainSource(b, s);
    PathKept(b, n, s.path);
    assert Lookup(g, s.path) == Expected(b, n, fs, s.path);
  }

  lemma ReachedMore(b: Build, n: nat, fs: Files, g: Files, h: Files)
    requires n < |b.sources| && Reached(b, n, fs, g) && HasInfo(b, g)
    requires Yields(b, b.sources[n], g, h) && Traced(b, b.sources[n], g, h)
    requires !b.opt.overlay ==> Lookup(h, b.names.tmpf5) == Lookup(g, b.names.tmpf5)
    ensures Reached(b, n + 1, fs, h)
  {
    hide Result, Outcome, Temps;
  }

  /** One more source and its trap. */
  lemma SourceStep(b: Build, n: nat, fs: Files)
    requires n < |b.sources|
    ensures Flow(b, Trapped(b.Sections(n + 1)), fs) == match Flow(b, Trapped(b.Sections(n)), fs)
      case None => None
      case Some(g) => Flow(b, b.Body(b.sources[n]), g)
  {
    var s := b.sources[n];
    OneMore(b, n);
    TrappedBody(b, s);
    hide *;
    FlowSum(b, Trapped(b.Sections(n)), b.Body(s) + [Mark(Trap)], fs);
    if Flow(b, Trapped(b.Sections(n)), fs).Some? {
      var g := Flow(b, Trapped(b.Sections(n)), fs).value;
      FlowSum(b, b.Body(s), [Mark(Trap)], g);
      if Flow(b, b.Body(s), g).Some? {
        FlowOne(b, Mark(Trap), Flow(b, b.Body(s), g).value);
        MarkFlow(b, Trap, Flow(b, b.Body(s), g).value);
      }
    }
  }

  /** When nothing fails every program for a source file finds what it needs, if and only if there is no symbol file without
      overlays; and then every result is what it should be. */
  lemma {:induction false} SourcesFlow(b: Build, n: nat, fs: Files)
    requires Named(b) && Sources(b, fs) && n <= |b.sources|
    ensures Flow(b, Trapped(b.Sections(n)), fs).Some? <==> NoneLost(b, n)
    ensures NoneLost(b, n) ==> Reached(b, n, fs, Flow(b, Trapped(b.Sections(n)), fs).value)
  {
    hide *;
    if n == 0 {
      NothingYet(b, fs);
    } else {
      SourcesFlow(b, n - 1, fs);
      SourceStep(b, n - 1, fs);
      LostMore(b, n);
      if NoneLost(b, n - 1) {
        var g := Flow(b, Trapped(b.Sections(n - 1)), fs).value;
        OneSource(b, n - 1, fs, g);
      }
    }
  }

  lemma LostMore(b: Build, n: nat)
    requires 0 < n <= |b.sources|
    ensures NoneLost(b, n) <==> NoneLost(b, n - 1) && !Lost(b, b.sources[n - 1])
  {
  }

  lemma NothingYet(b: Build, fs: Files)
    requires Sources(b, fs)
    ensures Flow(b, Trapped(b.Sections(0)), fs) == Some(fs) && NoneLost(b, 0) && Reached(b, 0, fs, fs)
  {
  }

  lemma OneSource(b: Build, n: nat, fs: Files, g: Files)
    requires Named(b) && Sources(b, fs) && n < |b.sources| && Reached(b, n, fs, g)
    ensures Flow(b, b.Body(b.sources[n]), g).Some? <==> !Lost(b, b.sources[n])
    ensures !Lost(b, b.sources[n]) ==> Reached(b, n + 1, fs, Flow(b, b.Body(b.sources[n]), g).value)
  {
    var s := b.sources[n];
    assert PlainSource(b, s) && !s.kind.SourceOther?;
    if Lost(b, s) {
      hide Flow;
      SymbolLost(b, s, g);
    } else {
      hide Sources, Reached, PlainSource, Flow, Named;
      StillPresent(b, n, fs, g);
      var h := SourceFlow(b, s, g);
      InfoPresent(b, s, g);
      ReachedMore(b, n, fs, g, h);
    }
  }
}
