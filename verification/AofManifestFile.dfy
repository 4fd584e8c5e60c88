/** The manifest as the server holds it, and the text file that persists it. */
module AofManifestFile {
  import opened Options
  import opened Decimal
  import opened Sds
  import opened AofManifest
  import opened AofManifestText

  /** `<aof_filename>.<seq>.base.rdb` and `<aof_filename>.<seq>.incr.aof`. */
  function NameOf(prefix: string, f: FileName): string {
    match f
    case BaseFile(n) => prefix + "." + Digits(n) + ".base.rdb"
    case IncrFile(n) => prefix + "." + Digits(n) + ".incr.aof"
    case _ => prefix
  }

  function NumberOf(f: FileName): nat {
    if f.BaseFile? || f.IncrFile? then f.n else 0
  }

  function KindOf(k: Kind): char {
    match k
    case Base => 'b'
    case Incr => 'i'
    case Hist => 'h'
  }

  function LineOf(prefix: string, i: Info): Line {
    Line(NameOf(prefix, i.file), NumberOf(i.file), KindOf(i.kind), i.start, i.end)
  }

  function LinesFor(prefix: string, infos: seq<Info>): (lines: seq<Line>)
    ensures |lines| == |infos| && forall i :: 0 <= i < |infos| ==> lines[i] == LineOf(prefix, infos[i])
  {
    seq(|infos|, i requires 0 <= i < |infos| => LineOf(prefix, infos[i]))
  }

  /** The lines that getAofManifestAsString formats. */
  function LinesOf(prefix: string, sm: ServerManifest): Lines
    reads sm
  {
    Lines(if sm.base.Some? then Some(LineOf(prefix, sm.base.value)) else None, LinesFor(prefix, sm.history),
          LinesFor(prefix, sm.incr), sm.currBaseSeq, sm.currIncrSeq)
  }

  /** A list of lines about the given files, in order. */
  predicate About(prefix: string, lines: seq<Line>, files: seq<FileName>) {
    && |lines| == |files|
    && forall i :: 0 <= i < |lines| ==>
       lines[i].name == NameOf(prefix, files[i]) && lines[i].number == NumberOf(files[i])
  }

  /** Lines and manifest name the same files and have the same counters. */
  predicate Represents(prefix: string, lines: Lines, m: Manifest) {
    && About(prefix, BaseLines(lines), BaseFiles(m)) && About(prefix, lines.incr, IncrFiles(m.incr))
    && About(prefix, lines.history, m.history)
    && lines.baseSeq == m.baseSeq && lines.incrSeq == m.incrSeq
  }

  /** The configured file name: no path, and without a single quote, unless other characters make
      it a quoted name. */
  predicate GoodPrefix(prefix: string) {
    IsBytes(prefix) && IsBaseName(prefix) && Readable(prefix)
  }

  /** What the server puts behind the prefix. */
  function TailOf(f: FileName): string
    requires f.BaseFile? || f.IncrFile?
  {
    "." + Digits(f.n) + if f.BaseFile? then ".base.rdb" else ".incr.aof"
  }

  lemma TailIsPlain(f: FileName)
    requires f.BaseFile? || f.IncrFile?
    ensures forall c :: c in TailOf(f) ==> c == '.' || '0' <= c <= '9' || 'a' <= c <= 'z'
  {
    var digits := Digits(f.n);
    assert forall c :: c in digits ==> '0' <= c <= '9';
    forall c | c in TailOf(f)
      ensures c == '.' || '0' <= c <= '9' || 'a' <= c <= 'z'
    {
      assert c in "." || c in digits || c in ".base.rdb" || c in ".incr.aof";
    }
  }

  lemma NameFacts(prefix: string, f: FileName)
    requires GoodPrefix(prefix) && (f.BaseFile? || f.IncrFile?)
    ensures var name := NameOf(prefix, f); IsBytes(name) && name != [] && IsBaseName(name) && Readable(name)
  {
    hide TailOf, Digits;
    var name := NameOf(prefix, f);
    NameSplits(prefix, f);
    TailIsPlain(f);
    assert forall c :: c in name ==> c in prefix || c in TailOf(f);
    if NeedsRepr(prefix) {
      var i :| 0 <= i < |prefix| && (prefix[i] == '\\' || prefix[i] == '\"' || !IsPrint(prefix[i])
        || IsSpace(prefix[i]));
      assert name[i] == prefix[i];
    }
  }

  lemma NameSplits(prefix: string, f: FileName)
    requires f.BaseFile? || f.IncrFile?
    ensures NameOf(prefix, f) == prefix + TailOf(f) && |TailOf(f)| > 0
  {
  }

  /** Entries with positive numbers make good lines. */
  lemma GoodLines(prefix: string, infos: seq<Info>)
    requires GoodPrefix(prefix)
    requires forall i :: 0 <= i < |infos| ==>
             (infos[i].file.BaseFile? || infos[i].file.IncrFile?) && NumberOf(infos[i].file) > 0
    ensures forall i :: 0 <= i < |infos| ==>
              ServerLine(LinesFor(prefix, infos)[i]) && Readable(LinesFor(prefix, infos)[i].name)
  {
    hide ServerLine, Readable, NameOf, GoodPrefix;
    forall i | 0 <= i < |infos|
      ensures ServerLine(LinesFor(prefix, infos)[i]) && Readable(LinesFor(prefix, infos)[i].name)
    {
      ServerLineOf(prefix, infos[i]);
    }
  }

  lemma HistoryNumbers(sm: ServerManifest)
    requires sm.Typed() && Ordered(sm.View())
    ensures forall i :: 0 <= i < |sm.history| ==>
              (sm.history[i].file.BaseFile? || sm.history[i].file.IncrFile?) && NumberOf(sm.history[i].file) > 0
  {
    var m := sm.View();
    forall i | 0 <= i < |sm.history|
      ensures (sm.history[i].file.BaseFile? || sm.history[i].file.IncrFile?) && NumberOf(sm.history[i].file) > 0
    {
      assert m.history[i] in m.history && Retired(m, m.history[i]);
    }
  }

  lemma IncrNumbers(sm: ServerManifest)
    requires sm.Typed() && Ordered(sm.View())
    ensures forall i :: 0 <= i < |sm.incr| ==> NumberOf(sm.incr[i].file) > 0
    ensures forall i, j :: 0 <= i < j < |sm.incr| ==> NumberOf(sm.incr[i].file) < NumberOf(sm.incr[j].file)
    ensures sm.base.Some? ==> NumberOf(sm.base.value.file) == sm.currBaseSeq > 0
  {
    hide Retired;
    var m := sm.View();
    assert forall i :: 0 <= i < |sm.incr| ==> m.incr[i] == NumberOf(sm.incr[i].file);
  }

  /** What the server holds can be written: one BASE, INCR numbers increasing, own names. */
  lemma HeldIsServerLines(prefix: string, sm: ServerManifest)
    requires GoodPrefix(prefix) && sm.Typed() && Ordered(sm.View()) && sm.base.Some?
    ensures var lines := LinesOf(prefix, sm);
            ServerLines(lines) && forall i :: 0 <= i < |AllLines(lines)| ==> Readable(AllLines(lines)[i].name)
  {
    hide ServerLine, Readable, NameOf, Ordered, GoodPrefix;
    var lines := LinesOf(prefix, sm);
    HistoryNumbers(sm);
    IncrNumbers(sm);
    ServerLineOf(prefix, sm.base.value);
    GoodLines(prefix, sm.history);
    GoodLines(prefix, sm.incr);
    AllGood(lines);
  }

  lemma AllGood(lines: Lines)
    requires lines.base.Some? && ServerLine(lines.base.value) && Readable(lines.base.value.name)
    requires forall i :: 0 <= i < |lines.history| ==>
               ServerLine(lines.history[i]) && Readable(lines.history[i].name)
    requires forall i :: 0 <= i < |lines.incr| ==> ServerLine(lines.incr[i]) && Readable(lines.incr[i].name)
    ensures forall i :: 0 <= i < |AllLines(lines)| ==>
              ServerLine(AllLines(lines)[i]) && Readable(AllLines(lines)[i].name)
  {
    hide ServerLine, Readable;
    var all, h := AllLines(lines), |lines.history|;
    forall i | 0 <= i < |all|
      ensures ServerLine(all[i]) && Readable(all[i].name)
    {
      if 0 < i <= h {
        assert all[i] == lines.history[i - 1];
      } else if i > h {
        assert all[i] == lines.incr[i - 1 - h];
      }
    }
  }

  lemma ServerLineOf(prefix: string, i: Info)
    requires GoodPrefix(prefix) && (i.file.BaseFile? || i.file.IncrFile?) && NumberOf(i.file) > 0
    ensures ServerLine(LineOf(prefix, i)) && Readable(LineOf(prefix, i).name)
  {
    hide NameOf, Readable;
    NameFacts(prefix, i.file);
  }

  lemma HeldRepresents(prefix: string, sm: ServerManifest)
    requires sm.Typed()
    ensures Represents(prefix, LinesOf(prefix, sm), sm.View())
  {
    hide NameOf;
  }

  /** The persisted manifest is loaded as Reload says, if every line fits the reader's buffer. */
  lemma PersistedIsReload(prefix: string, sm: ServerManifest)
    requires GoodPrefix(prefix) && sm.Typed() && Ordered(sm.View()) && sm.base.Some?
    requires forall i :: 0 <= i < |AllLines(LinesOf(prefix, sm))| ==>
             |FormatLine(AllLines(LinesOf(prefix, sm))[i])| <= MAX_LINE
    ensures var loaded := Load(FormatAll(AllLines(LinesOf(prefix, sm))));
            loaded.Ok? && Represents(prefix, loaded.value, Reload(sm.View()))
  {
    hide Load, FormatAll, Readable, FormatLine, NameOf, Ordered, ServerLines, GoodPrefix;
    var lines := LinesOf(prefix, sm);
    HeldIsServerLines(prefix, sm);
    HeldRepresents(prefix, sm);
    ManifestRoundTrip(lines);
    IncrNumbers(sm);
    RereadRepresents(prefix, lines, sm.View());
  }

  lemma KeptAbout(prefix: string, lines: seq<Line>, files: seq<FileName>)
    requires About(prefix, lines, files)
    ensures About(prefix, KeptAll(lines), files)
  {
    hide NameOf;
  }

  lemma RereadRepresents(prefix: string, lines: Lines, m: Manifest)
    requires Represents(prefix, lines, m) && (m.base.Some? ==> m.base.value == m.baseSeq)
    ensures Represents(prefix, Reread(lines), Reload(m))
  {
    hide NameOf, KeptAll;
    KeptAbout(prefix, lines.history, m.history);
    KeptAbout(prefix, lines.incr, IncrFiles(m.incr));
    assert |BaseLines(lines)| == |BaseFiles(m)|;
    if m.base.Some? {
      assert BaseLines(lines)[0].number == NumberOf(BaseFiles(m)[0]);
      assert BaseLines(lines)[0].name == NameOf(prefix, BaseFiles(m)[0]);
    }
    if m.incr != [] {
      var last := |m.incr| - 1;
      assert lines.incr[last].number == NumberOf(IncrFiles(m.incr)[last]);
    }
  }
}
