/** ec.c, the compiler driver: what it is to write for the interpreter, as a list of items for every combination of flags. */
module EcItems {
  import opened Bytes
  import opened CommandFile
  import opened Executor
  import opened Driver

  /** What setfcb makes of a file name: the user number and the first 32 bytes of the file control block. */
  type block = s: seq<byte> | |s| == 32 witness seq(32, _ => 0)
  datatype Fcb = Fcb(uid: byte, bytes: block)

  datatype Kind = SourceC | SourceAs | SourceSym | SourceOther

  /** A source file: its path, its name without drive and without suffix, and what the suffix says. */
  datatype Source = Source(path: string, stem: string, kind: Kind)

  /** The flags of the command line. */
  datatype Options = Options(keep: bool, keepas: bool, verbose: bool, optimize: bool, speed: bool, reloc: bool,
                             xref: bool, nolocal: bool, wildcard: bool, overlay: bool)

  /** Names of programs and temporary files, with their paths. */
  datatype Names = Names(linker: string, objto: string, cgen: string, optim: string, cpp: string, assem: string,
                         pass1: string, strtoff: string, cref: string, symtoas: string,
                         tmpf1: string, tmpf2: string, tmpf3: string, redname: string, ldotobj: string, execmd: string,
                         crtmp: string, tmpf5: string)

  /** What the command line and the set-up have gathered for the link step. */
  datatype Link = Link(flgs: seq<string>, segopt: string, origin: string, outfile: string, objs: seq<string>,
                       libs: seq<string>, stdlib: string, single: string, nfiles: nat, xrname: Option<string>, listing: string)

  type vector = v: seq<string> | v != [] witness [""]

  /** A call of one of the routines that write commands: doexec, print, rm with RM_FILE or RM_EXIT, put_cmd. */
  datatype Item = Do(path: string, vec: vector) | Say(text: string) | Erase(file: string) | Leave(file: string) | Mark(c: Command)

  function Ascii(s: string): (r: seq<byte>)
    ensures |r| == |s|
  {
    seq(|s|, i requires 0 <= i < |s| => s[i] as int % 256)
  }

  predicate Short(s: string) {
    0 < |s| <= 30
  }

  predicate ShortNames(n: Names) {
    && Short(n.tmpf1) && Short(n.tmpf2) && Short(n.tmpf3) && Short(n.redname) && |n.redname| <= 18
    && Short(n.ldotobj) && Short(n.execmd) && Short(n.crtmp) && Short(n.tmpf5) && Short(n.strtoff)
  }

  ghost predicate AllShort(vec: seq<string>) {
    forall i :: 0 <= i < |vec| ==> |vec[i]| <= 129
  }

  ghost predicate ArgumentsShort(l: Link) {
    && 3 <= |l.outfile| <= 100 && |l.single| <= 35 && |l.segopt| <= 129 && |l.origin| <= 129 && |l.listing| <= 129
    && |l.stdlib| <= 129 && AllShort(l.flgs) && AllShort(l.objs) && AllShort(l.libs)
    && (l.xrname.Some? ==> |l.xrname.value| <= 129)
  }

  /** The arguments as they stand in the command line, a space before each. */
  function Spaced(vec: seq<string>): string {
    if vec == [] then "" else Spaced(vec[..|vec| - 1]) + " " + vec[|vec| - 1]
  }

  /** Too long for a command line. */
  predicate Long(vec: seq<string>) {
    |Spaced(vec)| > 124
  }

  /** The file control block of a program to be run. */
  function Program(setfcb: string -> Fcb, path: string): name {
    setfcb(path).bytes[..9] + [0x43, 0x4F, 0x4D, 0] + setfcb(path).bytes[13..16]
  }

  // ---------------------------------------------------------------- redirection files

  /** The text of a redirection file: arguments with a space after each, broken into lines by a backslash and a newline;
      `len` is the length so far of the line, an unsigned char. */
  function Folded(vec: seq<string>, len: nat): string {
    if vec == [] then "\n" else
    var more := (len + |vec[0]| + 1) % 256;
    if more > 126 then "\\\n" + vec[0] + " " + Folded(vec[1..], (|vec[0]| + 1) % 256)
    else vec[0] + " " + Folded(vec[1..], more)
  }

  /** A text with its line breaks taken out. */
  function Unfolded(text: string): string {
    if |text| >= 2 && text[0] == '\\' && text[1] == '\n' then Unfolded(text[2..])
    else if text == "" then "" else [text[0]] + Unfolded(text[1..])
  }

  function Listed(vec: seq<string>): string {
    if vec == [] then "\n" else vec[0] + " " + Listed(vec[1..])
  }

  lemma {:induction false} UnfoldedWord(s: string, rest: string)
    requires '\\' !in s
    ensures Unfolded(s + rest) == s + Unfolded(rest)
  {
    if s == "" {
      assert s + rest == rest;
    } else {
      assert (s + rest)[1..] == s[1..] + rest;
      UnfoldedWord(s[1..], rest);
    }
  }

  lemma UnfoldedBreak(rest: string)
    ensures Unfolded("\\\n" + rest) == Unfolded(rest)
  {
    assert ("\\\n" + rest)[2..] == rest;
  }

  lemma UnfoldedEnd()
    ensures Unfolded("\n") == "\n"
  {
    assert "\n"[1..] == "";
  }

  /** Whatever line breaks have been put in, the arguments are all there, in order. */
  lemma {:induction false} FoldedKeeps(vec: seq<string>, len: nat)
    requires forall i :: 0 <= i < |vec| ==> '\\' !in vec[i]
    ensures Unfolded(Folded(vec, len)) == Listed(vec)
  {
    hide Unfolded;
    if vec == [] {
      UnfoldedEnd();
    } else {
      var more := (len + |vec[0]| + 1) % 256;
      var next := if more > 126 then (|vec[0]| + 1) % 256 else more;
      var word, rest := vec[0] + " ", Folded(vec[1..], next);
      FoldedKeeps(vec[1..], next);
      UnfoldedWord(word, rest);
      UnfoldedBreak(word + rest);
      assert "\\\n" + vec[0] + " " + rest == "\\\n" + (word + rest);
    }
  }

  /** No line of `text` has more than `max` characters, if there are `col` before it in the first. */
  predicate Narrow(text: string, col: nat, max: nat) {
    text == "" || (if text[0] == '\n' then Narrow(text[1..], 0, max) else col < max && Narrow(text[1..], col + 1, max))
  }

  lemma {:induction false} NarrowWord(s: string, rest: string, col: nat, max: nat)
    requires '\n' !in s && col + |s| <= max && Narrow(rest, col + |s|, max)
    ensures Narrow(s + rest, col, max)
  {
    if s == "" {
      assert s + rest == rest;
    } else {
      assert (s + rest)[1..] == s[1..] + rest;
      NarrowWord(s[1..], rest, col + 1, max);
    }
  }

  /** Lines are kept to 126 characters and the backslash. */
  lemma {:induction false} FoldedFits(vec: seq<string>, len: nat)
    requires len <= 126 && forall i :: 0 <= i < |vec| ==> |vec[i]| <= 125 && '\n' !in vec[i]
    ensures Narrow(Folded(vec, len), len, 127)
  {
    hide Folded, Narrow;
    if vec == [] {
      EndFits(len);
    } else {
      var more := len + |vec[0]| + 1;
      var next := if more > 126 then |vec[0]| + 1 else more;
      var word, rest := vec[0] + " ", Folded(vec[1..], next);
      FoldedStep(vec, len);
      FoldedFits(vec[1..], next);
      if more > 126 {
        NarrowWord(word, rest, 0, 127);
        BreakFits(word + rest, len);
      } else {
        NarrowWord(word, rest, len, 127);
      }
    }
  }

  lemma FoldedStep(vec: seq<string>, len: nat)
    requires vec != [] && len <= 126 && |vec[0]| <= 125
    ensures var more := len + |vec[0]| + 1;
      Folded(vec, len) == if more > 126 then "\\\n" + (vec[0] + " " + Folded(vec[1..], |vec[0]| + 1))
        else vec[0] + " " + Folded(vec[1..], more)
  {
    var rest := Folded(vec[1..], |vec[0]| + 1);
    assert "\\\n" + vec[0] + " " + rest == "\\\n" + (vec[0] + " " + rest);
  }

  lemma EndFits(len: nat)
    ensures Folded([], len) == "\n" && Narrow("\n", len, 127)
  {
    assert "\n"[1..] == "";
  }

  lemma BreakFits(rest: string, len: nat)
    requires len <= 126 && Narrow(rest, 0, 127)
    ensures Narrow("\\\n" + rest, len, 127)
  {
    var t := "\\\n" + rest;
    assert t[1..][1..] == rest && t[1..][0] == '\n' && t[0] == '\\';
  }

  // ---------------------------------------------------------------- what is to be written

  function KeptObjects(objs: seq<string>, left: string): seq<string> {
    if objs == [] then []
    else KeptObjects(objs[..|objs| - 1], left) + (if objs[|objs| - 1] == left then [] else [objs[|objs| - 1]])
  }

  /** Sections, each with a trap after it. */
  function Trapped(sections: seq<seq<Item>>): seq<Item> {
    if sections == [] then [] else Trapped(sections[..|sections| - 1]) + (sections[|sections| - 1] + [Mark(Trap)])
  }

  /** Everything the driver goes by when it starts to write. */
  datatype Build = Build(opt: Options, names: Names, setfcb: string -> Fcb, sources: seq<Source>, iuds: seq<string>, link: Link)
  {
    /** The command line of a program. */
    function Line(vec: vector): (s: string)
      ensures s != ""
    {
      if Long(vec) then " " + ("<" + names.redname) else Spaced(vec)
    }

    function Run(path: string, vec: vector): Command {
      Exec(setfcb(path).uid, Program(setfcb, path), setfcb(Line(vec)[1..]).bytes, Ascii(Line(vec)))
    }

    function RunOf(x: Item): Command
      requires x.Do?
    {
      Run(x.path, x.vec)
    }

    function Echoed(file: string): seq<Command> {
      if opt.verbose then [Print(Ascii("ERA " + file))] else []
    }

    function File(file: string): name {
      setfcb(file).bytes[..16]
    }

    function Erasure(file: string): seq<Command> {
      Echoed(file) + [RmFile(File(file))]
    }

    /** The commands an item comes to. */
    function Expand(x: Item): seq<Command> {
      match x
      case Do(path, vec) => [Run(path, vec)] + (if Long(vec) then Erasure(names.redname) else [])
      case Say(text) => [Print(Ascii(text))]
      case Erase(file) => Erasure(file)
      case Leave(file) => Echoed(file) + [RmExit(File(file))]
      case Mark(c) => [c]
    }

    function Expanded(xs: seq<Item>): seq<Command> {
      if xs == [] then [] else Expanded(xs[..|xs| - 1]) + Expand(xs[|xs| - 1])
    }

    /** The file of redirected arguments after one more item, and after all of them: its name is always the same. */
    function Refiled(had: Option<string>, x: Item): Option<string> {
      if x.Do? && Long(x.vec) then Some(Folded(x.vec, 0)) else had
    }

    function Redirected(xs: seq<Item>): Option<string> {
      if xs == [] then None else Refiled(Redirected(xs[..|xs| - 1]), xs[|xs| - 1])
    }

    function Announcement(s: Source): seq<Item> {
      if |sources| > 1 then [Say(s.path)] else []
    }

    /** compile: preprocessor, first pass, code generator; then, unless the assembler source is what is wanted, perhaps the
        optimizer, and, again unless that is to keep its output, the assembler. */
    function CompileItems(s: Source): seq<Item> {
      PassItems(s) + CodeItems(s)
    }

    function PassItems(s: Source): seq<Item> {
      [Preprocessing(s), FirstPassing()]
    }

    function Preprocessing(s: Source): Item {
      Do(names.cpp, iuds + [s.path, names.tmpf1])
    }

    function FirstPassing(): Item {
      Do(names.pass1, PassFlags() + [names.tmpf1, names.tmpf2, names.tmpf3])
    }

    predicate SourceWanted() {
      opt.keepas && !opt.optimize
    }

    function CodeItems(s: Source): seq<Item> {
      [Do(names.cgen, [names.tmpf2, if SourceWanted() then s.stem + ".AS" else names.tmpf1])]
      + (if SourceWanted() then [] else LastItems(s))
    }

    function LastItems(s: Source): seq<Item> {
      if !opt.optimize then [Final(s, names.tmpf1)]
      else [Optimizing(s)] + (if opt.keepas then [] else [Final(s, names.tmpf2)])
    }

    function Optimizing(s: Source): Item {
      Do(names.optim, SpeedFlag() + [names.tmpf1, if opt.keepas then s.stem + ".AS" else names.tmpf2])
    }

    // Definitions as lemmas, for proofs that hide the rest.

    lemma CompileIs(s: Source)
      ensures CompileItems(s) == PassItems(s) + CodeItems(s)
    {
    }

    lemma PassIs(s: Source)
      ensures PassItems(s) == [Preprocessing(s)] + [FirstPassing()]
    {
    }

    lemma PassFlagsAre()
      ensures PassFlags() == (if opt.keepas && !opt.optimize then ["-S"] else []) + (if opt.xref then ["-C" + names.crtmp] else [])
      ensures |names.crtmp| <= 30 ==> AllShort(PassFlags())
    {
    }

    lemma BodyIs(s: Source)
      ensures Body(s) == match s.kind
        case SourceC => Announcement(s) + CompileItems(s)
        case SourceAs => AssembleItems(s, s.path)
        case SourceSym => ConvertItems(s) + AssembleItems(s, names.tmpf5)
        case SourceOther => []
    {
    }

    lemma LastIs(s: Source)
      ensures LastItems(s) == if !opt.optimize then [Final(s, names.tmpf1)]
        else if opt.keepas then [Optimizing(s)]
        else [Optimizing(s)] + [Final(s, names.tmpf2)]
    {
    }

    lemma OptimizingIs(s: Source)
      ensures Optimizing(s) == Do(names.optim, SpeedFlag() + [names.tmpf1, if opt.keepas then s.stem + ".AS" else names.tmpf2])
      ensures SpeedFlag() == (if opt.speed then ["-F"] else []) && AllShort(SpeedFlag())
    {
    }

    lemma LinkIs()
      ensures LinkItems() == if opt.keep then [] else [Mark(IfNerr)] + [Do(names.linker, LinkArguments())] + AfterLink()
    {
    }

    lemma ItemsAre()
      ensures Items() == Opening() + Trapped(Sections(|sources|)) + CleanItems() + LinkItems() + CrossItems()
        + [Mark(Trap)] + [Leave(names.execmd)]
    {
    }

    lemma ArgumentsAre()
      ensures LinkArguments() == LinkFront() + (if opt.overlay then KeptObjects(link.objs, names.strtoff) else link.objs) + LinkLibraries()
    {
    }

    lemma CrossIs(xrname: string)
      requires opt.xref && link.xrname == Some(xrname)
      ensures CrossItems() == [Mark(IfNerr)] + [Do(names.cref, [xrname, link.listing, names.crtmp])] + [Erase(names.crtmp)]
    {
    }

    function PassFlags(): seq<string> {
      (if opt.keepas && !opt.optimize then ["-S"] else []) + (if opt.xref then ["-C" + names.crtmp] else [])
    }

    function SpeedFlag(): seq<string> {
      if opt.speed then ["-F"] else []
    }

    function JumpFlag(): seq<string> {
      if opt.optimize && !opt.speed then ["-J"] else []
    }

    function LocalFlag(): seq<string> {
      if opt.nolocal then ["-X"] else []
    }

    /** The assembler, at the end of compile. */
    function Final(s: Source, input: string): Item {
      Do(names.assem, LocalFlag() + JumpFlag() + ["-N", "-O" + s.stem + ".OBJ", input])
    }

    /** assemble, and the end of assemble_sym. */
    function AssembleItems(s: Source, input: string): seq<Item> {
      Announcement(s) + [Assembling(s, input)]
    }

    function Assembling(s: Source, input: string): Item {
      Do(names.assem, JumpFlag() + LocalFlag() + ["-O" + s.stem + ".OBJ", input])
    }

    /** The start of assemble_sym: with overlays the conversion of the symbols, which is a section of its own. */
    function ConvertItems(s: Source): seq<Item> {
      if opt.overlay then [Do(names.symtoas, [s.path, names.tmpf5]), Mark(Trap)] else []
    }

    /** What each source file has written for it: with overlays a symbol file has two sections. */
    function SourceSections(s: Source): (secs: seq<seq<Item>>)
      ensures secs != []
    {
      match s.kind
      case SourceC => [Announcement(s) + CompileItems(s)]
      case SourceAs => [AssembleItems(s, s.path)]
      case SourceSym =>
        (if opt.overlay then [[Do(names.symtoas, [s.path, names.tmpf5])]] else []) + [AssembleItems(s, names.tmpf5)]
      case SourceOther => [[]]
    }

    /** The same without the last trap. */
    function Body(s: Source): seq<Item> {
      match s.kind
      case SourceC => Announcement(s) + CompileItems(s)
      case SourceAs => AssembleItems(s, s.path)
      case SourceSym => ConvertItems(s) + AssembleItems(s, names.tmpf5)
      case SourceOther => []
    }

    function Sections(n: nat): seq<seq<Item>>
      requires n <= |sources|
    {
      if n == 0 then [] else Sections(n - 1) + SourceSections(sources[n - 1])
    }

    function CleanItems(): (xs: seq<Item>)
      ensures forall x :: x in xs ==> x.Erase?
    {
      [Erase(names.tmpf1), Erase(names.tmpf2), Erase(names.tmpf3), Erase(names.tmpf5)]
    }

    function LinkFront(): (vec: vector) {
      link.flgs + [link.segopt]
      + (if opt.reloc then ["-O" + names.ldotobj]
         else [link.origin, "-O" + (if opt.overlay && |link.outfile| >= 3 then link.outfile[..|link.outfile| - 3] + "OVR" else link.outfile)])
    }

    function LinkLibraries(): seq<string> {
      if opt.overlay then link.libs else (if opt.wildcard then ["WCR.OBJ"] else []) + link.libs + [link.stdlib]
    }

    function LinkArguments(): vector {
      LinkFront() + (if opt.overlay then KeptObjects(link.objs, names.strtoff) else link.objs) + LinkLibraries()
    }

    function ObjtoItem(): (x: Item)
      ensures x.Do?
    {
      Do(names.objto, ["-R", "-B100H", names.ldotobj, link.outfile])
    }

    /** What is written after the linker. */
    function AfterLink(): seq<Item> {
      (if opt.reloc then [ObjtoItem(), Erase(names.ldotobj)] else [])
      + (if |sources| == 1 && link.nfiles == 1 then [Erase(link.single)] else [])
    }

    function LinkItems(): seq<Item> {
      if opt.keep then [] else [Mark(IfNerr), Do(names.linker, LinkArguments())] + AfterLink()
    }

    function CrossItems(): seq<Item> {
      if !opt.xref then [] else
      match link.xrname
      case Some(xrname) => [Mark(IfNerr), Do(names.cref, [xrname, link.listing, names.crtmp]), Erase(names.crtmp)]
      case None => [Say("Cross reference info left in " + names.crtmp + ": ; run CREF to produce listing\n")]
    }

    function Opening(): seq<Item> {
      [Mark(SkpErr)] + (if opt.verbose then [Mark(Echo)] else [])
    }

    /** All of it. */
    function Items(): seq<Item> {
      Opening() + Trapped(Sections(|sources|)) + CleanItems() + LinkItems() + CrossItems() + [Mark(Trap), Leave(names.execmd)]
    }

    /** The same as a script. */
    function SectionCommands(sections: seq<seq<Item>>): (cs: seq<seq<Command>>)
      ensures |cs| == |sections| && forall i :: 0 <= i < |cs| ==> cs[i] == Expanded(sections[i])
    {
      seq(|sections|, i requires 0 <= i < |sections| => Expanded(sections[i]))
    }

    function Others(): seq<Command> {
      (if opt.keep then [] else (if Long(LinkArguments()) then Erasure(names.redname) else []) + Expanded(AfterLink()))
      + Expanded(CrossItems())
    }

    function Plan(): Script {
      Script(opt.verbose, SectionCommands(Sections(|sources|)), Expanded(CleanItems()),
             if opt.keep then None else Some(Run(names.linker, LinkArguments())), Others(), Echoed(names.execmd), File(names.execmd))
    }
  }

  // ---------------------------------------------------------------- for the proofs

  lemma Brief(a: seq<string>, c: seq<string>)
    requires AllShort(a) && AllShort(c)
    ensures AllShort(a + c)
  {
  }

  lemma Brief2(x: string, y: string)
    requires |x| <= 129 && |y| <= 129
    ensures AllShort([x, y])
  {
  }

  lemma Brief3(x: string, y: string, z: string)
    requires |x| <= 129 && |y| <= 129 && |z| <= 129
    ensures AllShort([x, y, z])
  {
  }

  lemma ArgumentsBrief(l: Link)
    requires ArgumentsShort(l)
    ensures |l.listing| <= 129 && 3 <= |l.outfile| <= 100 && (l.xrname.Some? ==> |l.xrname.value| <= 129)
  {
  }

  lemma Two(was: seq<Item>, x: Item, y: Item)
    ensures was + [x] + [y] == was + ([x] + [y])
  {
  }

  lemma Three(was: seq<Item>, x: Item, y: Item, z: seq<Item>)
    ensures was + [x] + [y] + z == was + ([x] + [y] + z)
  {
  }

  lemma NoSections(b: Build)
    ensures Trapped(b.Sections(0)) == []
  {
  }

  lemma OneMore(b: Build, i: nat)
    requires i < |b.sources|
    ensures Trapped(b.Sections(i + 1)) == Trapped(b.Sections(i)) + Trapped(b.SourceSections(b.sources[i]))
  {
    TrappedSum(b.Sections(i), b.SourceSections(b.sources[i]));
  }

  lemma ReasonableAt(b: Build, i: nat)
    requires Reasonable(b) && i < |b.sources|
    ensures 0 < |b.sources[i].path| <= 100 && |b.sources[i].stem| <= 70 && AllShort(b.iuds)
  {
  }

  lemma Grouped(was: seq<Item>, x: seq<Item>, y: seq<Item>, z: seq<Item>)
    ensures was + x + y + z == was + (x + (y + z))
  {
  }

  ghost predicate Reasonable(b: Build) {
    && (forall i :: 0 <= i < |b.sources| ==> 0 < |b.sources[i].path| <= 100 && |b.sources[i].stem| <= 70)
    && AllShort(b.iuds)
  }

  lemma TrappedOne(sec: seq<Item>)
    ensures Trapped([sec]) == sec + [Mark(Trap)]
  {
    assert [sec][..0] == [];
  }

  lemma {:induction false} TrappedSum(a: seq<seq<Item>>, c: seq<seq<Item>>)
    ensures Trapped(a + c) == Trapped(a) + Trapped(c)
  {
    if c == [] {
      assert a + c == a;
    } else {
      var front, last := c[..|c| - 1], c[|c| - 1] + [Mark(Trap)];
      TrappedSum(a, front);
      assert (a + c)[..|a + c| - 1] == a + front;
      assert Trapped(a) + (Trapped(front) + last) == Trapped(a) + Trapped(front) + last;
    }
  }

  /** The sections of one file, written out. */
  lemma TrappedBody(b: Build, s: Source)
    ensures Trapped(b.SourceSections(s)) == b.Body(s) + [Mark(Trap)]
  {
    hide Trapped;
    var secs := b.SourceSections(s);
    TrappedOne(secs[0]);
    if |secs| == 2 {
      TrappedOne(secs[1]);
      TrappedSum([secs[0]], [secs[1]]);
      assert secs == [secs[0]] + [secs[1]];
    } else {
      assert secs == [secs[0]];
    }
  }

  lemma OneSpaced(s: string)
    ensures Spaced([s]) == " " + s
  {
    assert [s][..0] == [];
  }

  lemma {:induction false} SpacedGrows(vec: seq<string>, p: nat)
    requires p <= |vec|
    ensures |Spaced(vec[..p])| <= |Spaced(vec)|
  {
    if p < |vec| {
      SpacedGrows(vec[..|vec| - 1], p);
      assert vec[..|vec| - 1][..p] == vec[..p];
    } else {
      assert vec[..p] == vec;
    }
  }
}
