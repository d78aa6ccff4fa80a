/** The two readers of a host's block: the host list and the forward rules of a connection. */
module HostScan {
  import opened Basics
  import opened Text
  import opened HostBlocks
  import opened ConfigLines
  import opened HostText
  import opened HostRoundTrip
  import opened HostSave
  import opened HostFile

  /** The block of a host, no lines if there is none. */
  function BlockOf(lines: seq<string>, name: string): seq<string> {
    match Block(lines, name)
    case None => []
    case Some(block) => block
  }

  /** A forward rule line is for one keyword only. */
  lemma {:induction false} OneWord(t: string, f: Field, g: Field)
    requires f != g && Word(f) != "" && Word(g) != "" && HasPrefix(ToLower(t), Word(f) + " ")
    ensures Forward(Word(g), t) == []
  {
    assert Word(f)[0] != Word(g)[0];
    assert ToLower(t)[0] == (Word(f) + " ")[0] != (Word(g) + " ")[0];
  }

  /** The first half of the loop body: tags and comments. */
  method ScanMarker(raw: string) returns (tags: seq<string>, comments: seq<string>)
    ensures tags == Part(Tags, raw) && comments == Part(Comments, raw)
  {
    tags, comments := [], [];
    var line := TrimSpace(raw);
    if HasPrefix(line, "### ") {
      var content := line[4..];
      var fields := Fields(content);
      var isTagLine := |fields| > 0;
      for k := 0 to |fields|
        invariant isTagLine <==> fields != [] && forall j :: 0 <= j < k ==> HasPrefix(fields[j], "#")
      {
        if !HasPrefix(fields[k], "#") {
          isTagLine := false;
          break;
        }
      }
      if isTagLine {
        for k := 0 to |fields|
          invariant tags + Unhashed(fields[k..]) == Unhashed(fields)
        {
          assert fields[k..][1..] == fields[k + 1..];
          tags := tags + [fields[k][1..]];
        }
      } else {
        comments := [content];
      }
    }
  }

  /** The second half: forward rules. */
  method ScanForward(raw: string) returns (local: seq<string>, remote: seq<string>, dynamic: seq<string>)
    ensures local == Part(Local, raw) && remote == Part(Remote, raw) && dynamic == Part(Dynamic, raw)
  {
    local, remote, dynamic := [], [], [];
    var line := TrimSpace(raw);
    var lower := ToLower(line);
    if HasPrefix(lower, Word(Local) + " ") {
      OneWord(line, Local, Remote);
      OneWord(line, Local, Dynamic);
      local := NonEmpty(TrimSpace(line[|Word(Local)| + 1..]));
    } else if HasPrefix(lower, Word(Remote) + " ") {
      OneWord(line, Remote, Dynamic);
      remote := NonEmpty(TrimSpace(line[|Word(Remote)| + 1..]));
    } else if HasPrefix(lower, Word(Dynamic) + " ") {
      dynamic := NonEmpty(TrimSpace(line[|Word(Dynamic)| + 1..]));
    }
  }

  function NonEmpty(val: string): seq<string> {
    if val != "" then [val] else []
  }

  lemma {:induction false} ScanOneMore(f: Reading, lines: seq<string>, start: nat, i: nat)
    requires start <= i < |lines|
    ensures Scan(f, lines[start..i + 1]) == Scan(f, lines[start..i]) + Part(f, lines[i])
  {
    assert lines[start..i + 1] == lines[start..i] + [lines[i]];
    ScanAppend(f, lines[start..i], [lines[i]]);
    OneLine(lines[i]);
  }

  /** The scan of a host's block in the host list. */
  method ScanBlock(lines: seq<string>, name: string)
    returns (tags: seq<string>, comment: string, local: string, remote: string, dynamic: string)
    ensures tags == Scan(Tags, BlockOf(lines, name)) && comment == Join(Scan(Comments, BlockOf(lines, name)), '\n')
    ensures local == Join(Scan(Local, BlockOf(lines, name)), '\n')
    ensures remote == Join(Scan(Remote, BlockOf(lines, name)), '\n')
    ensures dynamic == Join(Scan(Dynamic, BlockOf(lines, name)), '\n')
  {
    var start, end := FindHostBlock(lines, name);
    var comments: seq<string>;
    tags, comments := ScanMarkers(lines, start, end);
    local, remote, dynamic := ScanForwards(lines, start, end);
    comment := Join(comments, '\n');
  }

  /** The loop of the host list, as far as tags and comments go. */
  method ScanMarkers(lines: seq<string>, start: int, end: int) returns (tags: seq<string>, comments: seq<string>)
    requires start == -1 || 0 <= start <= end <= |lines|
    ensures var block := if start == -1 then [] else lines[start..end];
      tags == Scan(Tags, block) && comments == Scan(Comments, block)
  {
    tags, comments := [], [];
    if start != -1 {
      for i := start to end
        invariant tags == Scan(Tags, lines[start..i]) && comments == Scan(Comments, lines[start..i])
      {
        ScanOneMore(Tags, lines, start, i);
        ScanOneMore(Comments, lines, start, i);
        var newTags, newComments := ScanMarker(lines[i]);
        tags, comments := tags + newTags, comments + newComments;
      }
    }
  }

  /** The loop as far as forward rules go, the same in both readers. */
  method ScanForwards(lines: seq<string>, start: int, end: int) returns (local: string, remote: string, dynamic: string)
    requires start == -1 || 0 <= start <= end <= |lines|
    ensures var block := if start == -1 then [] else lines[start..end];
      local == Join(Scan(Local, block), '\n') && remote == Join(Scan(Remote, block), '\n')
      && dynamic == Join(Scan(Dynamic, block), '\n')
  {
    var locals, remotes, dynamics: seq<string> := [], [], [];
    if start != -1 {
      for i := start to end
        invariant locals == Scan(Local, lines[start..i]) && remotes == Scan(Remote, lines[start..i])
        invariant dynamics == Scan(Dynamic, lines[start..i])
      {
        ScanOneMore(Local, lines, start, i);
        ScanOneMore(Remote, lines, start, i);
        ScanOneMore(Dynamic, lines, start, i);
        var l, r, d := ScanForward(lines[i]);
        locals, remotes, dynamics := locals + l, remotes + r, dynamics + d;
      }
    }
    return Join(locals, '\n'), Join(remotes, '\n'), Join(dynamics, '\n');
  }

  method GetHostForwardRules(file: Option<string>, name: string)
    returns (localForward: string, remoteForward: string, dynamicForward: string)
    ensures localForward == Join(Scan(Local, BlockOf(Lines(file), name)), '\n')
    ensures remoteForward == Join(Scan(Remote, BlockOf(Lines(file), name)), '\n')
    ensures dynamicForward == Join(Scan(Dynamic, BlockOf(Lines(file), name)), '\n')
  {
    var lines := ReadConfigLines(file);
    var start, end := FindHostBlock(lines, name);
    if start == -1 {
      return "", "", "";
    }
    localForward, remoteForward, dynamicForward := ScanForwards(lines, start, end);
  }

  // ---- Saving what was read changes nothing more ----

  /** The settings of a host after it was saved and read. */
  function Again(h: HostData): HostData {
    h.(comment := Join(Value(Comments, h), '\n'), localForward := Join(Value(Local, h), '\n'),
       remoteForward := Join(Value(Remote, h), '\n'), dynamicForward := Join(Value(Dynamic, h), '\n'))
  }

  lemma {:induction false} RulesOfRules(rules: seq<string>)
    requires forall r <- rules :: Trimmed(r) && r != "" && !HasPrefix(r, "#")
    ensures RulesOf(rules) == rules
    decreases |rules|
  {
    if rules != [] {
      assert rules[0] in rules;
      TrimTrimmed(rules[0]);
      assert forall r <- rules[1..] :: r in rules;
      RulesOfRules(rules[1..]);
    }
  }

  lemma {:induction false} TrimAllTrimmedLines(parts: seq<string>)
    requires forall x <- parts :: Trimmed(x)
    ensures TrimAll(parts) == parts
    decreases |parts|
  {
    if parts != [] {
      assert parts[0] in parts;
      TrimTrimmed(parts[0]);
      TrimAllTrimmedLines(parts[1..]);
    }
  }

  lemma {:induction false} JoinIsTrimmed(parts: seq<string>)
    requires parts != [] && forall x <- parts :: Trimmed(x) && x != ""
    ensures var s := Join(parts, '\n'); Trimmed(s) && s != ""
    decreases |parts|
  {
    assert parts[0] in parts;
    if |parts| > 1 {
      assert forall x <- parts[1..] :: x in parts;
      JoinIsTrimmed(parts[1..]);
    }
  }

  lemma {:induction false} RulesAgain(text: string)
    ensures Rules(Join(Rules(text), '\n')) == Rules(text)
  {
    var lines := Split(text, '\n');
    var rules := RulesOf(lines);
    JoinSplit(text, '\n');
    RulesAre(lines);
    TrimAllOneLine(lines);
    if rules == [] {
      TrimIs("", "", "");
      assert Split("", '\n') == [""] && RulesOf([""][1..]) == [];
      assert RulesOf([""]) == [];
    } else {
      SplitJoin(rules, '\n');
      RulesOfRules(rules);
    }
  }

  lemma {:induction false} CommentAgain(comment: string)
    requires forall x <- CommentParts(comment) :: x != ""
    ensures CommentParts(Join(CommentParts(comment), '\n')) == CommentParts(comment)
  {
    var parts := CommentParts(comment);
    if parts == [] {
      TrimIs("", "", "");
    } else {
      CommentStarts(comment);
      JoinSplit(TrimSpace(comment), '\n');
      TrimAllOneLine(Split(TrimSpace(comment), '\n'));
      JoinIsTrimmed(parts);
      TrimTrimmed(Join(parts, '\n'));
      SplitJoin(parts, '\n');
      TrimAllTrimmedLines(parts);
    }
  }

  /** What was read renders the same lines again: reading and saving settle after the first time. */
  lemma {:induction false} RenderAgain(h: HostData)
    requires Readable(h)
    ensures Render(Again(h)) == Render(h)
  {
    CommentAgain(h.comment);
    RulesAgain(h.localForward);
    RulesAgain(h.remoteForward);
    RulesAgain(h.dynamicForward);
  }
}
