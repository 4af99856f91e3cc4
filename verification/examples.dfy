/**
  Worked cases of the rewrite: leading zeros, several matches in one text, a
  reset that changes one match of two, and a batch with an unreadable path.
 */
module Examples {
  import opened Decimal
  import opened Scanner
  import opened Flags
  import opened Bump
  import opened Batch

  const Increase := Mode(true, false)
  const Fresh := Mode(false, true)

  /** The empty text has no match. */
  lemma RewriteEmpty(m: Mode)
    ensures Rewrite(m, "") == FileRewrite("", false, [])
  {
  }

  /** A one-digit string parses to that digit. */
  lemma ParseOneDigit(d: string)
    requires |d| == 1 && IsDigit(d[0])
    ensures Parse(d) == DigitValue(d[0])
  {
  }

  /** A text that is one match whose version changes becomes the prefix and the new rendering. */
  lemma LoneMatchChanged(m: Mode, d: string, e: string)
    requires IsDigitRun(d) && NewVersion(m, Parse(d)) != Parse(d) && e == Show(NewVersion(m, Parse(d)))
    ensures Rewrite(m, Prefix + d) == FileRewrite(Prefix + e, true, [Edit(Prefix + d, Prefix + e)])
  {
    RewriteEmpty(m);
    RewriteAtMatch(m, d, "");
    assert Prefix + d + "" == Prefix + d;
    assert Prefix + e + "" == Prefix + e;
    assert [Edit(Prefix + d, Prefix + e)] + [] == [Edit(Prefix + d, Prefix + e)];
  }

  /** Increase drops the padding of the matched digits: `_v007` becomes `_v8`. */
  lemma IncreaseDropsPadding()
    ensures Rewrite(Increase, "_v007") == FileRewrite("_v8", true, [Edit("_v007", "_v8")])
  {
    LeadingZeroIgnored("07");
    LeadingZeroIgnored("7");
    assert "0" + "07" == "007" && "0" + "7" == "07";
    ParseOneDigit("7");
    assert NewVersion(Increase, Parse("007")) == 8;
    assert Show(8) == [DigitChar(8)] == "8";
    LoneMatchChanged(Increase, "007", "8");
    assert Prefix + "007" == "_v007";
    assert Prefix + "8" == "_v8";
  }

  /** Reset keeps `_v01` verbatim: its digits already parse to 1. */
  lemma FreshKeepsPaddedOne()
    ensures Rewrite(Fresh, "_v01") == FileRewrite("_v01", false, [])
  {
    LeadingZeroIgnored("1");
    assert "0" + "1" == "01";
    ParseOneDigit("1");
    RewriteEmpty(Fresh);
    RewriteAtMatch(Fresh, "01", "");
    assert Prefix + "01" + "" == "_v01";
  }

  /** How `name_v3_other_v3` and `name_v4_other_v4` split into plain text and matches. */
  lemma EveryMatchLiterals()
    ensures Prefix + "3" == "_v3" && Prefix + "4" == "_v4"
    ensures "other" + "_v3" == "other_v3" && ['_'] + "other_v3" == "_other_v3"
    ensures Prefix + "3" + "_other_v3" == "_v3_other_v3"
    ensures "name" + "_v3_other_v3" == "name_v3_other_v3"
    ensures "name" + (Prefix + "4" + (['_'] + ("other" + "_v4"))) == "name_v4_other_v4"
    ensures '_' !in "other" && '_' !in "name"
  {
  }

  /** Both matches of `name_v3_other_v3` are raised independently and the rest is kept. */
  lemma IncreaseEveryMatch()
    ensures Rewrite(Increase, "name_v3_other_v3").content == "name_v4_other_v4"
  {
    EveryMatchLiterals();
    ParseOneDigit("3");
    ParseOneDigit("4");
    assert Show(4) == [DigitChar(4)] == "4";
    LoneMatchChanged(Increase, "3", "4");
    RewritePlain(Increase, "other", "_v3");
    RewriteAtText(Increase, '_', "other_v3");
    RewriteAtMatch(Increase, "3", "_other_v3");
    RewritePlain(Increase, "name", "_v3_other_v3");
  }

  /** How `_v1 _v7` and `_v1 _v1` split into matches and the space between them. */
  lemma PartialDeltaLiterals()
    ensures Prefix + "7" == "_v7" && Prefix + "1" == "_v1"
    ensures " " + "_v7" == " _v7" && Prefix + "1" + " _v7" == "_v1 _v7"
    ensures Prefix + "1" + (" " + "_v1") == "_v1 _v1"
    ensures '_' !in " "
  {
  }

  /** Reset over `_v1 _v7` rewrites only the second match, logs one line, and marks the text changed. */
  lemma FreshPartialDelta()
    ensures Rewrite(Fresh, "_v1 _v7") == FileRewrite("_v1 _v1", true, [Edit("_v7", "_v1")])
  {
    PartialDeltaLiterals();
    ParseOneDigit("1");
    ParseOneDigit("7");
    assert Show(1) == [DigitChar(1)] == "1";
    LoneMatchChanged(Fresh, "7", "1");
    RewritePlain(Fresh, " ", "_v7");
    RewriteAtMatch(Fresh, "1", " _v7");
  }

  /** The matches and path lists of the batch with an unreadable path. */
  lemma IsolationLiterals()
    ensures Prefix + "1" == "_v1" && Prefix + "2" == "_v2" && Prefix + "3" == "_v3"
    ensures ["a.ts"] + ["missing.ts"] + ["b.ts"] == ["a.ts", "missing.ts", "b.ts"]
    ensures ["a.ts"] + ["b.ts"] == ["a.ts", "b.ts"]
    ensures ["a.ts", "b.ts"][1..] == ["b.ts"] && ["b.ts"][1..] == []
  {
  }

  /** Increase turns a lone one-digit match into the next digit, flagging the change. */
  lemma IncreaseOneDigit(d: string, e: string)
    requires |d| == 1 && |e| == 1 && IsDigit(d[0]) && IsDigit(e[0])
    requires DigitValue(e[0]) == DigitValue(d[0]) + 1
    ensures Rewrite(Increase, Prefix + d).hasChange
    ensures Rewrite(Increase, Prefix + d).content == Prefix + e
  {
    ParseOneDigit(d);
    ParseOneDigit(e);
    ShowParse(e);
    LoneMatchChanged(Increase, d, e);
  }

  /** One iteration that writes, followed by the rest of the loop. */
  lemma RunWrites(m: Mode, path: string, rest: seq<string>, fs: FileSystem)
    requires Rewrites(m, fs, path)
    ensures var tail := Run(m, rest, fs[path := Rewrite(m, fs[path]).content]);
            Run(m, [path] + rest, fs) == RunResult(tail.files, tail.totalChanges + 1, [path] + tail.written)
  {
    assert ([path] + rest)[0] == path && ([path] + rest)[1..] == rest;
  }

  /** The file system of that batch after each of its two writes. */
  lemma IsolationMaps()
    ensures map["a.ts" := "_v1", "b.ts" := "_v2"]["a.ts"] == "_v1"
    ensures map["a.ts" := "_v1", "b.ts" := "_v2"]["a.ts" := "_v2"]["b.ts"] == "_v2"
    ensures map["a.ts" := "_v1", "b.ts" := "_v2"]["a.ts" := "_v2"]["b.ts" := "_v3"]
            == map["a.ts" := "_v2", "b.ts" := "_v3"]
  {
  }

  /** An unreadable path between two readable ones: both are rewritten and the count is 2. */
  lemma ErrorIsolation()
    ensures var fs := map["a.ts" := "_v1", "b.ts" := "_v2"];
            var r := Run(Increase, ["a.ts", "missing.ts", "b.ts"], fs);
            r.totalChanges == 2 && r.files == map["a.ts" := "_v2", "b.ts" := "_v3"]
  {
    IsolationLiterals();
    IsolationMaps();
    var fs := map["a.ts" := "_v1", "b.ts" := "_v2"];
    var fs1 := fs["a.ts" := "_v2"];
    var fs2 := fs1["b.ts" := "_v3"];
    MissingPathSkipped(Increase, ["a.ts"], "missing.ts", ["b.ts"], fs);
    IncreaseOneDigit("1", "2");
    IncreaseOneDigit("2", "3");
    RunWrites(Increase, "a.ts", ["b.ts"], fs);
    RunWrites(Increase, "b.ts", [], fs1);
    assert ["b.ts"] + [] == ["b.ts"];
    assert Run(Increase, [], fs2) == RunResult(fs2, 0, []);
  }
}
