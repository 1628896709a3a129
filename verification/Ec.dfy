/** ec.c: the routines that write the command file, byte after byte, and that what they write is the list of items. */
module Ec {
  import opened Bytes
  import opened CommandFile
  import opened EcItems

  // ---------------------------------------------------------------- writing it

  lemma Appended(cs: seq<Command>, c: Command)
    requires AllEncodable(cs) && Encodable(c)
    ensures AllEncodable(cs + [c]) && Stream(cs + [c]) == Stream(cs) + Encode(c)
  {
    StreamSum(cs, [c]);
    assert Stream([c]) == Encode(c) + Stream([]);
    assert [c][1..] == [];
  }

  class Compiler {
    const b: Build
    var cmdfile: seq<byte>
    var redirection: Option<string>
    ghost var cmds: seq<Command>
    ghost var items: seq<Item>

    constructor (b: Build)
      requires ShortNames(b.names)
      ensures Valid() && items == [] && this.b == b
    {
      this.b, cmdfile, redirection, cmds, items := b, [], None, [], [];
    }

    /** The command file holds the commands written so far. */
    ghost predicate Sound()
      reads this`cmdfile, this`cmds
    {
      AllEncodable(cmds) && cmdfile == Stream(cmds) && ShortNames(b.names)
    }

    /** They are those of the items dealt with so far. */
    ghost predicate Valid()
      reads this
    {
      Sound() && cmds == b.Expanded(items) && redirection == b.Redirected(items)
    }

    /** One more item has been dealt with. */
    ghost method Note(x: Item)
      requires Sound() && cmds == b.Expanded(items) + b.Expand(x) && redirection == b.Refiled(b.Redirected(items), x)
      modifies this`items
      ensures Valid() && items == old(items) + [x]
    {
      assert (items + [x])[..|items + [x]| - 1] == items;
      items := items + [x];
    }

    method Put(bytes: seq<byte>, ghost c: Command)
      requires Sound() && Encodable(c) && bytes == Encode(c)
      modifies this`cmdfile, this`cmds
      ensures Sound() && cmds == old(cmds) + [c]
    {
      Appended(cmds, c);
      cmdfile := cmdfile + bytes;
      cmds := cmds + [c];
    }

    /** put_cmd. */
    method PutCmd(i: byte, ghost c: Command)
      requires Valid() && Encodable(c) && Code(c) == i && Body(c) == []
      modifies this`cmdfile, this`cmds, this`items
      ensures Valid() && items == old(items) + [Mark(c)]
    {
      hide Sound;
      assert Encode(c) == [i, 0];
      Put([i, 0], c);
      Note(Mark(c));
    }

    /** The commands without parameters. */
    method PutMark(i: byte, ghost c: Command)
      requires Valid() && ((c == Trap && i == 0x85) || (c == IfNerr && i == 0x87))
      modifies this`cmdfile, this`cmds, this`items
      ensures Valid() && items == old(items) + [Mark(c)]
    {
      hide Valid;
      PutCmd(i, c);
    }

    /** print. */
    method PrintText(s: string)
      requires Sound() && 0 < |s| <= 255
      modifies this`cmdfile, this`cmds
      ensures Sound() && cmds == old(cmds) + [Print(Ascii(s))]
    {
      hide Sound, Ascii;
      Put([0x89, |s|] + Ascii(s), Print(Ascii(s)));
    }

    /** rm, with RM_FILE or RM_EXIT. */
    method Rm(exit: bool, file: string)
      requires Sound() && |file| <= 35
      modifies this`cmdfile, this`cmds
      ensures Sound() && cmds == old(cmds) + b.Expand(if exit then Leave(file) else Erase(file))
    {
      hide Sound, Ascii;
      if b.opt.verbose {
        PrintText("ERA " + file);
      }
      var f := b.setfcb(file).bytes[..16];
      if exit {
        Put([0x8B, 16] + f, RmExit(f));
      } else {
        Put([0x8A, 16] + f, RmFile(f));
      }
    }

    /** What doexec measures: the length of the command line, as far as it is of interest. */
    method Measure(vec: vector) returns (len: nat)
      requires AllShort(vec)
      ensures len == |Spaced(vec)| || (len > 124 && |Spaced(vec)| > 124)
    {
      len := 0;
      var p := 0;
      assert vec[..0] == [];
      while p < |vec| && len <= 124
        invariant 0 <= p <= |vec| && len == |Spaced(vec[..p])| && len < 256
      {
        assert vec[..p + 1][..p] == vec[..p];
        len := (len + |vec[p]| + 1) % 256;
        p := p + 1;
      }
      assert vec[..|vec|] == vec;
      SpacedGrows(vec, p);
    }

    /** The file of redirected arguments. */
    method Redirect(vec: vector)
      modifies this`redirection
      ensures redirection == Some(Folded(vec, 0))
    {
      var cfile, len, p := "", 0, 0;
      assert vec[0..] == vec;
      while p < |vec|
        invariant 0 <= p <= |vec| && 0 <= len < 256 && cfile + Folded(vec[p..], len) == Folded(vec, 0)
      {
        ghost var rest, had, was := vec[p..], cfile, len;
        len := (len + |vec[p]| + 1) % 256;
        if len > 126 {
          cfile := cfile + "\\\n";
          len := (|vec[p]| + 1) % 256;
        }
        cfile := cfile + vec[p] + " ";
        p := p + 1;
        assert rest[1..] == vec[p..];
        assert cfile + Folded(vec[p..], len) == had + Folded(rest, was);
      }
      assert vec[p..] == [];
      redirection := Some(cfile + "\n");
    }

    /** The command line put together. */
    method Join(vec: seq<string>) returns (xbuf: string)
      ensures xbuf == Spaced(vec)
    {
      xbuf := "";
      var p := 0;
      assert vec[..0] == [];
      while p < |vec|
        invariant 0 <= p <= |vec| && xbuf == Spaced(vec[..p])
      {
        assert vec[..p + 1][..p] == vec[..p];
        xbuf := xbuf + " " + vec[p];
        p := p + 1;
      }
      assert vec[..|vec|] == vec;
    }

    /** The second half of doexec. */
    method PutExec(path: string, args: seq<string>, ghost vec: vector)
      requires Sound() && Spaced(args) == b.Line(vec) && |Spaced(args)| <= 124
      modifies this`cmdfile, this`cmds
      ensures Sound() && cmds == old(cmds) + [b.Run(path, vec)]
    {
      hide Sound, Ascii, Spaced, Encode;
      var xbuf := Join(args);
      var f := b.setfcb(path);
      var program := f.bytes[..9] + [0x43, 0x4F, 0x4D, 0] + f.bytes[13..16];
      var fcbs := b.setfcb(xbuf[1..]).bytes;
      ghost var e := Exec(f.uid, program, fcbs, Ascii(xbuf));
      ExecBytes(e);
      Put([0x81, |xbuf| + 50] + ([f.uid] + program + fcbs + [|xbuf|] + Ascii(xbuf)), e);
    }

    lemma ExecBytes(e: Command)
      requires e.Exec? && Encodable(e)
      ensures Encode(e) == [0x81, |e.tail| + 50] + ([e.uid] + e.program + e.fcbs + [|e.tail|] + e.tail)
    {
    }

    /** doexec. A command line that is too long goes to a file, and is replaced by a redirection. */
    method Doexec(path: string, vec: vector)
      requires Valid() && AllShort(vec)
      modifies this`cmdfile, this`cmds, this`redirection, this`items
      ensures Valid() && items == old(items) + [Do(path, vec)]
    {
      hide Ascii, Spaced, Program, Sound, Folded, AllShort;
      Shortened();
      var len := Measure(vec);
      if len > 124 {
        Redirect(vec);
        var redir := ["<" + b.names.redname];
        OneSpaced(redir[0]);
        PutExec(path, redir, vec);
        Rm(false, b.names.redname);
      } else {
        PutExec(path, vec, vec);
      }
      Note(Do(path, vec));
    }

    lemma NamesBrief()
      requires Valid()
      ensures |b.names.tmpf1| <= 30 && |b.names.tmpf2| <= 30 && |b.names.tmpf3| <= 30 && |b.names.tmpf5| <= 30
      ensures |b.names.ldotobj| <= 30 && |b.names.execmd| <= 30 && |b.names.crtmp| <= 30 && ShortNames(b.names)
    {
    }

    lemma Shortened()
      requires Sound()
      ensures |b.names.redname| <= 18 && ShortNames(b.names)
    {
    }

    // ------------------------------------------------------------ one source file

    method Announce(s: Source)
      requires Valid() && 0 < |s.path| <= 100
      modifies this`cmdfile, this`cmds, this`items
      ensures Valid() && items == old(items) + b.Announcement(s)
    {
      hide Sound, Ascii;
      if |b.sources| > 1 {
        PrintText(s.path);
        Note(Say(s.path));
      }
    }

    /** compile. */
    method Compile(s: Source)
      requires Valid() && 0 < |s.path| <= 100 && |s.stem| <= 100 && AllShort(b.iuds)
      modifies this`cmdfile, this`cmds, this`redirection, this`items
      ensures Valid() && items == old(items) + (b.Announcement(s) + b.CompileItems(s))
    {
      hide *;
      Announce(s);
      Passes(s);
      GenerateCode(s);
      Grouped(old(items), b.Announcement(s), b.PassItems(s), b.CodeItems(s));
      assert b.CompileItems(s) == b.PassItems(s) + b.CodeItems(s) by { b.CompileIs(s); }
    }

    method Passes(s: Source)
      requires Valid() && 0 < |s.path| <= 100 && AllShort(b.iuds)
      modifies this`cmdfile, this`cmds, this`redirection, this`items
      ensures Valid() && items == old(items) + b.PassItems(s)
    {
      hide *;
      Preprocess(s);
      FirstPass();
      b.PassIs(s);
      Two(old(items), b.Preprocessing(s), b.FirstPassing());
    }

    method Preprocess(s: Source)
      requires Valid() && 0 < |s.path| <= 100 && AllShort(b.iuds)
      modifies this`cmdfile, this`cmds, this`redirection, this`items
      ensures Valid() && items == old(items) + [b.Preprocessing(s)]
    {
      NamesBrief();
      hide Valid;
      Brief2(s.path, b.names.tmpf1);
      Brief(b.iuds, [s.path, b.names.tmpf1]);
      Doexec(b.names.cpp, b.iuds + [s.path, b.names.tmpf1]);
    }

    method FirstPass()
      requires Valid()
      modifies this`cmdfile, this`cmds, this`redirection, this`items
      ensures Valid() && items == old(items) + [b.FirstPassing()]
    {
      NamesBrief();
      hide Valid;
      var vec := [];
      if b.opt.keepas && !b.opt.optimize {
        vec := vec + ["-S"];
      }
      if b.opt.xref {
        vec := vec + ["-C" + b.names.crtmp];
      }
      b.PassFlagsAre();
      assert vec == b.PassFlags();
      Brief3(b.names.tmpf1, b.names.tmpf2, b.names.tmpf3);
      Brief(vec, [b.names.tmpf1, b.names.tmpf2, b.names.tmpf3]);
      Doexec(b.names.pass1, vec + [b.names.tmpf1, b.names.tmpf2, b.names.tmpf3]);
    }

    method GenerateCode(s: Source)
      requires Valid() && |s.stem| <= 100
      modifies this`cmdfile, this`cmds, this`redirection, this`items
      ensures Valid() && items == old(items) + b.CodeItems(s)
    {
      Shortened();
      hide Valid;
      Doexec(b.names.cgen, [b.names.tmpf2, if b.opt.keepas && !b.opt.optimize then s.stem + ".AS" else b.names.tmpf1]);
      if b.opt.keepas && !b.opt.optimize {
        return;
      }
      Finish(s);
    }

    /** The optimizer and the assembler. */
    method Finish(s: Source)
      requires Valid() && |s.stem| <= 100
      modifies this`cmdfile, this`cmds, this`redirection, this`items
      ensures Valid() && items == old(items) + b.LastItems(s)
    {
      NamesBrief();
      hide *;
      b.LastIs(s);
      if b.opt.optimize {
        Optimize(s);
        if !b.opt.keepas {
          FinalStep(s, b.names.tmpf2);
          Two(old(items), b.Optimizing(s), b.Final(s, b.names.tmpf2));
        }
      } else {
        FinalStep(s, b.names.tmpf1);
      }
    }

    method Optimize(s: Source)
      requires Valid() && |s.stem| <= 100
      modifies this`cmdfile, this`cmds, this`redirection, this`items
      ensures Valid() && items == old(items) + [b.Optimizing(s)]
    {
      NamesBrief();
      hide *;
      b.OptimizingIs(s);
      var vec := if b.opt.speed then ["-F"] else [];
      var out := if b.opt.keepas then s.stem + ".AS" else b.names.tmpf2;
      Brief2(b.names.tmpf1, out);
      Brief(vec, [b.names.tmpf1, out]);
      Doexec(b.names.optim, vec + [b.names.tmpf1, out]);
    }

    method FinalStep(s: Source, cp: string)
      requires Valid() && |s.stem| <= 100 && |cp| <= 100
      modifies this`cmdfile, this`cmds, this`redirection, this`items
      ensures Valid() && items == old(items) + [b.Final(s, cp)]
    {
      hide Valid;
      var vec := if b.opt.nolocal then ["-X"] else [];
      if b.opt.optimize && !b.opt.speed {
        vec := vec + ["-J"];
      }
      assert vec == b.LocalFlag() + b.JumpFlag();
      Doexec(b.names.assem, vec + ["-N", "-O" + s.stem + ".OBJ", cp]);
    }

    /** assemble, and the end of assemble_sym. */
    method Assemble(s: Source, input: string)
      requires Valid() && 0 < |s.path| <= 100 && |s.stem| <= 70 && |input| <= 100
      modifies this`cmdfile, this`cmds, this`redirection, this`items
      ensures Valid() && items == old(items) + b.AssembleItems(s, input)
    {
      hide Valid;
      Announce(s);
      var vec := if b.opt.optimize && !b.opt.speed then ["-J"] else [];
      if b.opt.nolocal {
        vec := vec + ["-X"];
      }
      assert vec == b.JumpFlag() + b.LocalFlag();
      Doexec(b.names.assem, vec + ["-O" + s.stem + ".OBJ", input]);
    }

    // ------------------------------------------------------------ doit

    /** One source file: its sections, a trap after each. */
    method OneSource(s: Source)
      requires Valid() && 0 < |s.path| <= 100 && |s.stem| <= 70 && AllShort(b.iuds)
      modifies this`cmdfile, this`cmds, this`redirection, this`items
      ensures Valid() && items == old(items) + Trapped(b.SourceSections(s))
    {
      hide *;
      SourceBody(s);
      PutMark(0x85, Trap);
      TrappedBody(b, s);
    }

    method SourceBody(s: Source)
      requires Valid() && 0 < |s.path| <= 100 && |s.stem| <= 70 && AllShort(b.iuds)
      modifies this`cmdfile, this`cmds, this`redirection, this`items
      ensures Valid() && items == old(items) + b.Body(s)
    {
      NamesBrief();
      b.BodyIs(s);
      hide *;
      match s.kind {
        case SourceC =>
          Compile(s);
        case SourceAs =>
          Assemble(s, s.path);
        case SourceSym =>
          AssembleSym(s);
        case SourceOther =>
      }
    }

    /** assemble_sym. */
    method AssembleSym(s: Source)
      requires Valid() && 0 < |s.path| <= 100 && |s.stem| <= 70
      modifies this`cmdfile, this`cmds, this`redirection, this`items
      ensures Valid() && items == old(items) + (b.ConvertItems(s) + b.AssembleItems(s, b.names.tmpf5))
    {
      NamesBrief();
      hide *;
      Convert(s);
      Assemble(s, b.names.tmpf5);
    }

    method Convert(s: Source)
      requires Valid() && 0 < |s.path| <= 100
      modifies this`cmdfile, this`cmds, this`redirection, this`items
      ensures Valid() && items == old(items) + b.ConvertItems(s)
    {
      NamesBrief();
      hide Valid;
      if b.opt.overlay {
        Brief2(s.path, b.names.tmpf5);
        Doexec(b.names.symtoas, [s.path, b.names.tmpf5]);
        PutMark(0x85, Trap);
      }
    }

    /** The loop over the source files. */
    method AllSources()
      requires Valid() && Reasonable(b)
      modifies this`cmdfile, this`cmds, this`redirection, this`items
      ensures Valid() && items == old(items) + Trapped(b.Sections(|b.sources|))
    {
      NoSections(b);
      hide *;
      var i := 0;
      while i < |b.sources|
        invariant 0 <= i <= |b.sources| && Valid() && items == old(items) + Trapped(b.Sections(i))
      {
        ReasonableAt(b, i);
        OneSource(b.sources[i]);
        OneMore(b, i);
        i := i + 1;
      }
    }

    /** rm, with RM_FILE. */
    method Remove(file: string)
      requires Valid() && |file| <= 35
      modifies this`cmdfile, this`cmds, this`items
      ensures Valid() && items == old(items) + [Erase(file)]
    {
      hide Sound;
      Rm(false, file);
      Note(Erase(file));
    }

    method CleanUp()
      requires Valid()
      modifies this`cmdfile, this`cmds, this`items
      ensures Valid() && items == old(items) + b.CleanItems()
    {
      Shortened();
      hide Valid;
      Remove(b.names.tmpf1);
      Remove(b.names.tmpf2);
      Remove(b.names.tmpf3);
      Remove(b.names.tmpf5);
    }

    /** The arguments of the linker, put together. */
    method GatherArguments() returns (vec: vector)
      requires ArgumentsShort(b.link) && ShortNames(b.names)
      ensures vec == b.LinkArguments() && AllShort(vec)
    {
      hide *;
      vec := GatherFront();
      var objs := GatherObjects();
      Brief(vec, objs);
      vec := vec + objs;
      var libs := GatherLibraries();
      Brief(vec, libs);
      vec := vec + libs;
      b.ArgumentsAre();
    }

    method GatherFront() returns (vec: vector)
      requires ArgumentsShort(b.link) && ShortNames(b.names)
      ensures vec == b.LinkFront() && AllShort(vec)
    {
      var l := b.link;
      vec := l.flgs + [l.segopt];
      if b.opt.reloc {
        vec := vec + ["-O" + b.names.ldotobj];
      } else {
        var outfile := if b.opt.overlay then l.outfile[..|l.outfile| - 3] + "OVR" else l.outfile;
        vec := vec + [l.origin, "-O" + outfile];
      }
    }

    method GatherLibraries() returns (vec: seq<string>)
      requires ArgumentsShort(b.link)
      ensures vec == b.LinkLibraries() && AllShort(vec)
    {
      var libs := b.link.libs;
      vec := [];
      if !b.opt.overlay {
        if b.opt.wildcard {
          vec := vec + ["WCR.OBJ"];
        }
        libs := libs + [b.link.stdlib];
      }
      vec := vec + libs;
    }

    method GatherObjects() returns (vec: seq<string>)
      requires ArgumentsShort(b.link)
      ensures vec == (if b.opt.overlay then KeptObjects(b.link.objs, b.names.strtoff) else b.link.objs) && AllShort(vec)
    {
      vec := [];
      var i := 0;
      var objs := b.link.objs;
      assert objs[..0] == [];
      while i < |objs|
        invariant 0 <= i <= |objs| && AllShort(vec)
        invariant vec == if b.opt.overlay then KeptObjects(objs[..i], b.names.strtoff) else objs[..i]
      {
        assert objs[..i + 1][..i] == objs[..i];
        if !(b.opt.overlay && objs[i] == b.names.strtoff) {
          vec := vec + [objs[i]];
        }
        i := i + 1;
      }
      assert objs[..|objs|] == objs;
    }

    /** The link step: the linker under IF_NERR, and for relocatable programs the conversion after it. */
    method LinkStep()
      requires Valid() && ArgumentsShort(b.link)
      modifies this`cmdfile, this`cmds, this`redirection, this`items
      ensures Valid() && items == old(items) + b.LinkItems()
    {
      NamesBrief();
      hide *;
      b.LinkIs();
      if !b.opt.keep {
        var vec := GatherArguments();
        PutMark(0x87, IfNerr);
        Doexec(b.names.linker, vec);
        ConvertStep();
        Three(old(items), Mark(IfNerr), Do(b.names.linker, vec), b.AfterLink());
      }
    }

    method ConvertStep()
      requires Valid() && ArgumentsShort(b.link)
      modifies this`cmdfile, this`cmds, this`redirection, this`items
      ensures Valid() && items == old(items) + b.AfterLink()
    {
      NamesBrief();
      hide Valid, Trapped;
      if b.opt.reloc {
        Objto();
        Remove(b.names.ldotobj);
      }
      if |b.sources| == 1 && b.link.nfiles == 1 {
        Remove(b.link.single);
      }
    }

    method Objto()
      requires Valid() && ArgumentsShort(b.link)
      modifies this`cmdfile, this`cmds, this`redirection, this`items
      ensures Valid() && items == old(items) + [b.ObjtoItem()]
    {
      NamesBrief();
      hide Valid;
      Doexec(b.names.objto, ["-R", "-B100H", b.names.ldotobj, b.link.outfile]);
    }

    /** The listing of cross references: CREF, under IF_NERR. */
    method CrossStep()
      requires Valid() && ArgumentsShort(b.link)
      modifies this`cmdfile, this`cmds, this`redirection, this`items
      ensures Valid() && items == old(items) + b.CrossItems()
    {
      if b.opt.xref {
        match b.link.xrname {
          case Some(xrname) => CrossRun(xrname);
          case None => CrossNote();
        }
      }
    }

    method CrossRun(xrname: string)
      requires Valid() && ArgumentsShort(b.link) && b.opt.xref && b.link.xrname == Some(xrname)
      modifies this`cmdfile, this`cmds, this`redirection, this`items
      ensures Valid() && items == old(items) + b.CrossItems()
    {
      NamesBrief();
      ArgumentsBrief(b.link);
      hide *;
      PutMark(0x87, IfNerr);
      Brief3(xrname, b.link.listing, b.names.crtmp);
      Doexec(b.names.cref, [xrname, b.link.listing, b.names.crtmp]);
      Remove(b.names.crtmp);
      b.CrossIs(xrname);
    }

    method CrossNote()
      requires Valid() && b.opt.xref && b.link.xrname == None
      modifies this`cmdfile, this`cmds, this`items
      ensures Valid() && items == old(items) + b.CrossItems()
    {
      Shortened();
      hide Sound, Ascii;
      var text := "Cross reference info left in " + b.names.crtmp + ": ; run CREF to produce listing\n";
      PrintText(text);
      Note(Say(text));
    }

    /** doit. */
    method Doit()
      requires Valid() && items == [] && Reasonable(b) && ArgumentsShort(b.link)
      modifies this`cmdfile, this`cmds, this`redirection, this`items
      ensures Valid() && items == b.Items()
    {
      NamesBrief();
      hide *;
      Open();
      AllSources();
      CleanUp();
      LinkStep();
      CrossStep();
      PutMark(0x85, Trap);
      LeaveAtLast(b.names.execmd);
      b.ItemsAre();
    }

    method Open()
      requires Valid() && items == []
      modifies this`cmdfile, this`cmds, this`items
      ensures Valid() && items == b.Opening()
    {
      hide Valid;
      PutCmd(0x84, SkpErr);
      if b.opt.verbose {
        PutCmd(0x88, Echo);
      }
    }

    /** rm, with RM_EXIT. */
    method LeaveAtLast(file: string)
      requires Valid() && |file| <= 35
      modifies this`cmdfile, this`cmds, this`items
      ensures Valid() && items == old(items) + [Leave(file)]
    {
      hide Sound;
      Rm(true, file);
      Note(Leave(file));
    }
  }
}
