/** What a reader finds of a saved host, in terms of the texts that were saved. */
module HostValues {
  import opened Basics
  import opened Text
  import opened HostBlocks
  import opened ConfigLines
  import opened HostText
  import opened HostRoundTrip
  import opened HostSplice
  import opened HostSave
  import opened HostFile

  // ---- Comments ----

  /** A comment as it was typed: `parts` from the first line with text to the last one, and blank lines around
      them. Every text has exactly one such form. */
  ghost predicate Typed(comment: string, pre: seq<string>, parts: seq<string>, post: seq<string>) {
    && comment == Join(pre + parts + post, '\n')
    && AllBlank(pre) && AllBlank(post) && OneLineEach(parts)
    && (parts != [] ==> !Blank(parts[0]) && !Blank(parts[|parts| - 1]))
  }

  lemma {:induction false} TypedSomehow(comment: string)
    returns (pre: seq<string>, parts: seq<string>, post: seq<string>)
    ensures Typed(comment, pre, parts, post)
  {
    var lines := Split(comment, '\n');
    JoinSplit(comment, '\n');
    var rest;
    pre, rest := DropBlanks(lines);
    parts, post := CutBlanks(rest);
    ConcatAssoc(pre, parts, post);
    assert forall p <- parts :: p in lines;
    if parts != [] {
      assert parts[0] == rest[0];
    }
  }

  lemma {:induction false} TrimTail(s: string)
    ensures TrimSpace(s + "\n" + "\n") == TrimSpace(s)
  {
    var a, b := TrimParts(s);
    var t := TrimSpace(s);
    assert s + "\n" + "\n" == a + t + (b + "\n\n");
    TrimIs(a, t, b + "\n\n");
  }

  lemma {:induction false} TrimJoined(pre: seq<string>, mid: seq<string>, post: seq<string>)
    requires AllBlank(pre) && AllBlank(post) && mid != []
    ensures TrimSpace(Join(pre + mid + post, '\n')) == TrimSpace(Join(mid, '\n'))
  {
    var all := pre + mid + post;
    TrimOuter(pre, mid, post);
    TerminatedIsJoined(all);
    TrimTail(Join(all, '\n'));
  }

  lemma {:induction false} BlankJoined(lines: seq<string>)
    requires AllBlank(lines)
    ensures Blank(Join(lines, '\n'))
  {
    if lines != [] {
      TerminatedBlank(lines);
      TerminatedIsJoined(lines);
      var j := Join(lines, '\n');
      forall c | c in j ensures IsSpace(c) {
        assert c in j + "\n";
      }
    }
  }

  lemma {:induction false} TrimAllAt(lines: seq<string>, i: nat)
    requires i < |lines|
    ensures TrimAll(lines)[i] == TrimSpace(lines[i])
    decreases |lines|
  {
    if i > 0 {
      TrimAllAt(lines[1..], i - 1);
    }
  }

  /** The saved lines of a comment are its lines from the first with text to the last, trimmed one by one. */
  lemma {:induction false} CommentLines(comment: string, pre: seq<string>, parts: seq<string>, post: seq<string>)
    requires Typed(comment, pre, parts, post)
    ensures |CommentParts(comment)| == |parts|
    ensures forall i :: 0 <= i < |parts| ==> CommentParts(comment)[i] == TrimSpace(parts[i])
  {
    if parts == [] {
      assert pre + parts + post == pre + post;
      BlankJoined(pre + post);
      BlankIff(comment);
    } else {
      TrimJoined(pre, parts, post);
      RereadCore(parts);
      var t := TrimSpace(comment);
      var lines := Split(t, '\n');
      BlankIff(parts[0]);
      assert TrimSpace(lines[0]) == TrimSpace(parts[0]) != "";
      forall i | 0 <= i < |parts| ensures CommentParts(comment)[i] == TrimSpace(parts[i]) {
        TrimAllAt(lines, i);
      }
    }
  }

  lemma {:induction false} PrefixedAt(p: string, lines: seq<string>, i: nat)
    requires i < |lines|
    ensures Prefixed(p, lines)[i] == p + lines[i]
    decreases |lines|
  {
    if i > 0 {
      PrefixedAt(p, lines[1..], i - 1);
    }
  }

  lemma {:induction false} PrefixedFrom(p: string, lines: seq<string>, k: nat)
    requires k <= |lines|
    ensures Prefixed(p, lines)[k..] == Prefixed(p, lines[k..])
  {
    forall i | 0 <= i < |lines| - k ensures Prefixed(p, lines)[k..][i] == Prefixed(p, lines[k..])[i] {
      PrefixedAt(p, lines, k + i);
      PrefixedAt(p, lines[k..], i);
    }
  }

  /** The lines above the settings, letter by letter: the comment, the tags on one line, the Host line. */
  lemma {:induction false} RenderedHead(h: HostData, pre: seq<string>, parts: seq<string>, post: seq<string>)
    requires Named(h) && Typed(h.comment, pre, parts, post)
    ensures var lines, n := Render(h), |parts| + if h.tags == [] then 0 else 1;
      && |lines| > n + 2
      && (forall i :: 0 <= i < |parts| ==> lines[i] == "### " + TrimSpace(parts[i]))
      && (h.tags != [] ==> lines[|parts|] == "### " + Join(Prefixed("#", h.tags), ' '))
      && lines[n] == "Host " + h.name && lines[n + 1] == "    HostName " + h.hostName && lines[|lines| - 1] == ""
    ensures forall i :: 0 <= i < |h.tags| ==> Prefixed("#", h.tags)[i] == "#" + h.tags[i]
  {
    CommentLines(h.comment, pre, parts, post);
    AllPrefixed("#", h.tags);
    HeadLines(h, CommentParts(h.comment), parts, Render(h));
  }

  lemma {:induction false} HeadLines(h: HostData, saved: seq<string>, parts: seq<string>, lines: seq<string>)
    requires saved == CommentParts(h.comment) && TrimmedEach(saved, parts) && lines == Render(h)
    ensures var n := |parts| + if h.tags == [] then 0 else 1;
      && |lines| > n + 2
      && (forall i :: 0 <= i < |parts| ==> lines[i] == "### " + TrimSpace(parts[i]))
      && (h.tags != [] ==> lines[|parts|] == "### " + Join(Prefixed("#", h.tags), ' '))
      && lines[n] == "Host " + h.name && lines[n + 1] == "    HostName " + h.hostName && lines[|lines| - 1] == ""
  {
    AllPrefixed("### ", saved);
    FirstSetting(h, "    HostName " + h.hostName);
    LineAt(Prefixed("### ", saved), TagLines(h.tags), "Host " + h.name, Options(h), Forwards(h));
  }

  lemma {:induction false} AllPrefixed(p: string, lines: seq<string>)
    ensures forall i :: 0 <= i < |lines| ==> Prefixed(p, lines)[i] == p + lines[i]
  {
    forall i | 0 <= i < |lines| ensures Prefixed(p, lines)[i] == p + lines[i] {
      PrefixedAt(p, lines, i);
    }
  }

  lemma {:induction false} FirstSetting(h: HostData, line: string)
    requires line == "    HostName " + h.hostName
    ensures Options(h) != [] && Options(h)[0] == line
  {
    assert OptionLine("HostName", h.hostName) == line;
  }

  lemma {:induction false} LineAt(p: seq<string>, tags: seq<string>, host: string, options: seq<string>,
                                  forwards: seq<string>)
    requires |tags| <= 1 && options != []
    ensures var lines, n := p + tags + [host] + (options + forwards + [""]), |p| + |tags|;
      && |lines| > n + 2
      && (forall i :: 0 <= i < |p| ==> lines[i] == p[i])
      && (tags != [] ==> lines[|p|] == tags[0])
      && lines[n] == host && lines[n + 1] == options[0] && lines[|lines| - 1] == ""
  {
  }

  /** The line of a setting, if it has a value. */
  function SettingLine(key: string, value: string): seq<string> {
    if value == "" then [] else ["    " + key + " " + value]
  }

  lemma {:induction false} NextSetting(first: (string, string), rest: seq<(string, string)>, all: seq<(string, string)>)
    requires all == [first] + rest
    ensures OptionLines(all) == SettingLine(first.0, first.1) + OptionLines(rest)
  {
    assert all[1..] == rest;
  }

  lemma {:induction false} NoSettings()
    ensures OptionLines([]) == []
  {
  }

  /** The settings in the order in which they are written. */
  lemma {:induction false} ConnectionLines(h: HostData)
    ensures OptionLines(Connection(h)) ==
            SettingLine("User", h.user) + (SettingLine("Port", h.port) + (SettingLine("IdentityFile", h.identityFile) +
            (SettingLine("ProxyJump", h.proxyJump) + (SettingLine("RemoteCommand", h.remoteCommand) +
            (SettingLine("AddressFamily", h.addressFamily) + [])))))
  {
    var c := Connection(h);
    NextSetting(c[0], c[1..], c);
    NextSetting(c[1], c[2..], c[1..]);
    NextSetting(c[2], c[3..], c[2..]);
    NextSetting(c[3], c[4..], c[3..]);
    NextSetting(c[4], c[5..], c[4..]);
    NextSetting(c[5], [], c[5..]);
    NoSettings();
  }

  lemma {:induction false} CheckingLines(h: HostData)
    ensures OptionLines(Checking(h)) ==
            SettingLine("UserKnownHostsFile", h.userKnownHostsFile) +
            (SettingLine("StrictHostKeyChecking", h.strictHostKeyChecking) +
            (SettingLine("HostKeyAlgorithms", h.hostKeyAlgorithms) + (SettingLine("VerifyHostKeyDNS", h.verifyHostKeyDNS) +
            (SettingLine("SendEnv", h.sendEnv) + []))))
  {
    var c := Checking(h);
    NextSetting(c[0], c[1..], c);
    NextSetting(c[1], c[2..], c[1..]);
    NextSetting(c[2], c[3..], c[2..]);
    NextSetting(c[3], c[4..], c[3..]);
    NextSetting(c[4], [], c[4..]);
    NoSettings();
  }

  /** The lines below the Host line: the name of the host, the settings in these two groups, the forward rules of
      each kind, and an empty line. `CommentThroughFile` and `RulesThroughFile` say what they are in the text. */
  lemma {:induction false} RenderedRest(h: HostData, head: seq<string>)
    requires head == Head(h) + ["Host " + h.name]
    ensures head <= Render(h)
    ensures Render(h)[|head|..] ==
            ["    HostName " + h.hostName] + OptionLines(Connection(h)) + OptionLines(Checking(h)) +
            (Prefixed("    LocalForward ", Rules(h.localForward)) + Prefixed("    RemoteForward ", Rules(h.remoteForward))
             + Prefixed("    DynamicForward ", Rules(h.dynamicForward))) + [""]
  {
    assert OptionLine("HostName", h.hostName) == "    HostName " + h.hostName;
    assert LOCAL == "    LocalForward " && REMOTE == "    RemoteForward " && DYNAMIC == "    DynamicForward ";
    assert Render(h)[|head|..] == Rest(h);
  }

  lemma {:induction false} RemarkIff(p: string)
    ensures IsRemark(TrimSpace(p)) <==> exists w <- Fields(p) :: !HasPrefix(w, "#")
  {
    FieldsTrimmed(p);
    TrimTwice(p);
    var t := TrimSpace(p);
    if t == "" {
      assert Fields(t) == [];
    } else {
      assert Fields(t) != [];
    }
  }

  /** What one saved comment line says of comments and tags. */
  lemma {:induction false} MarkerPart(x: string)
    requires Trimmed(x)
    ensures Part(Comments, "### " + x) == if IsRemark(x) then [x] else []
    ensures Part(Tags, "### " + x) == [] <==> !IsTagLine(x)
  {
    if x == "" {
      EmptyMarker();
      assert "### " + "" == "### " && Fields("") == [];
    } else {
      MarkerFacts(x);
    }
  }

  lemma {:induction false} FirstComment(parts: seq<string>, x: string)
    requires parts != [] && x == parts[0] && Trimmed(x)
    ensures Scan(Comments, Prefixed("### ", parts)) ==
            (if IsRemark(x) then [x] else []) + Scan(Comments, Prefixed("### ", parts[1..]))
  {
    MarkerPart(x);
    FirstMarker(Comments, parts);
  }

  lemma {:induction false} CommentsFound(parts: seq<string>)
    requires forall x <- parts :: Trimmed(x)
    ensures var found := Scan(Comments, Prefixed("### ", parts));
      && |found| <= |parts|
      && (found == parts <==> forall x <- parts :: IsRemark(x))
      && (|found| == |parts| ==> found == parts)
    decreases |parts|
  {
    if parts != [] {
      var x, more := parts[0], parts[1..];
      FirstComment(parts, x);
      assert forall y <- more :: y in parts;
      CommentsFound(more);
      EachFirst(parts, x, more);
      OneMorePart(parts, Scan(Comments, Prefixed("### ", parts)), Scan(Comments, Prefixed("### ", more)), IsRemark(x),
                  forall y <- more :: IsRemark(y));
    }
  }

  lemma {:induction false} NothingTwice(a: seq<string>, b: seq<string>)
    ensures a + b == [] <==> a == [] && b == []
  {
  }

  lemma {:induction false} EachFirst(parts: seq<string>, x: string, more: seq<string>)
    requires parts == [x] + more
    ensures (forall y <- parts :: IsRemark(y)) <==> IsRemark(x) && forall y <- more :: IsRemark(y)
  {
  }

  /** `first` and `rest`: whether the first part, and all others, are remarks. */
  lemma {:induction false} OneMorePart(parts: seq<string>, found: seq<string>, more: seq<string>, first: bool,
                                      rest: bool)
    requires parts != [] && |more| <= |parts| - 1 && found == (if first then [parts[0]] else []) + more
    requires (more == parts[1..] <==> rest) && (|more| == |parts| - 1 ==> rest)
    ensures |found| <= |parts| && (found == parts <==> first && rest) && (|found| == |parts| ==> found == parts)
  {
    if first && rest {
      assert found == parts;
    } else {
      assert |found| < |parts|;
    }
  }

  lemma {:induction false} FirstMarker(f: Field, parts: seq<string>)
    requires parts != []
    ensures Scan(f, Prefixed("### ", parts)) == Part(f, "### " + parts[0]) + Scan(f, Prefixed("### ", parts[1..]))
  {
    assert Prefixed("### ", parts)[1..] == Prefixed("### ", parts[1..]);
  }

  lemma {:induction false} FirstTags(parts: seq<string>)
    requires parts != []
    ensures Scan(Tags, Prefixed("### ", parts)) == [] <==>
            NoTags(parts[0]) && Scan(Tags, Prefixed("### ", parts[1..])) == []
  {
    FirstMarker(Tags, parts);
    NothingTwice(Part(Tags, "### " + parts[0]), Scan(Tags, Prefixed("### ", parts[1..])));
  }

  lemma {:induction false} TagsFound(parts: seq<string>)
    requires forall x <- parts :: Trimmed(x)
    ensures Scan(Tags, Prefixed("### ", parts)) == [] <==> forall x <- parts :: !IsTagLine(x)
  {
    NoTagsFound(parts);
    forall x | x in parts ensures NoTags(x) <==> !IsTagLine(x) {
      MarkerPart(x);
    }
  }

  lemma {:induction false} NoTagsFound(parts: seq<string>)
    ensures Scan(Tags, Prefixed("### ", parts)) == [] <==> forall x <- parts :: NoTags(x)
    decreases |parts|
  {
    if parts != [] {
      FirstTags(parts);
      NoTagsFound(parts[1..]);
      NoTagsFirst(parts, parts[0], parts[1..]);
    }
  }

  ghost predicate NoTags(x: string) {
    Part(Tags, "### " + x) == []
  }

  lemma {:induction false} NoTagsFirst(parts: seq<string>, x: string, more: seq<string>)
    requires parts == [x] + more
    ensures (forall y <- parts :: NoTags(y)) <==> NoTags(x) && forall y <- more :: NoTags(y)
  {
  }

  lemma {:induction false} DropFour(a: seq<string>, b: seq<string>, c: seq<string>, d: seq<string>, k: nat)
    requires k <= |a|
    ensures (a + b + c + d)[k..] == a[k..] + (b + c + d)
  {
  }

  /** Scanning the rendered lines from some comment line on. */
  lemma {:induction false} ScanFrom(h: HostData, k: nat, f: Field)
    requires Named(h) && k <= |CommentParts(h.comment)|
    ensures k <= |Render(h)|
    ensures Glued(Scan(f, Prefixed("### ", CommentParts(h.comment)[k..])), Scan(f, TagLines(h.tags)), Scan(f, Rest(h)),
                  Scan(f, Render(h)[k..]))
  {
    var parts := CommentParts(h.comment);
    var p, tags, host, rest := Prefixed("### ", parts), TagLines(h.tags), ["Host " + h.name], Rest(h);
    PrefixedFrom("### ", parts, k);
    DropFour(p, tags, host, rest, k);
    ScanAppend(f, p[k..], tags + host + rest);
    HostScan(h.name, f, "Host " + h.name);
    ThreeParts(tags, host, rest, f);
    Glue(Scan(f, p[k..]), Scan(f, tags), Scan(f, rest), Scan(f, Render(h)[k..]));
  }

  /** What is left of `a`, `b` and `c` behind each other when some of them are empty. */
  ghost predicate Glued(a: seq<string>, b: seq<string>, c: seq<string>, all: seq<string>) {
    && (b == [] && c == [] ==> all == a)
    && (c == [] ==> (all == b <==> a == []))
    && (a == [] && b == [] ==> all == c)
  }

  lemma {:induction false} Glue(a: seq<string>, b: seq<string>, c: seq<string>, all: seq<string>)
    requires all == a + (b + [] + c)
    ensures Glued(a, b, c, all)
  {
    assert |all| == |a| + |b| + |c|;
  }

  lemma {:induction false} TrimmedFrom(comment: string, k: nat)
    requires k <= |CommentParts(comment)|
    ensures forall x <- CommentParts(comment)[k..] :: Trimmed(x)
  {
    var parts := CommentParts(comment);
    if parts != [] {
      CommentStarts(comment);
    }
    forall x | x in parts[k..] ensures Trimmed(x) {
      assert x in parts;
    }
  }

  lemma {:induction false} OwnComments(h: HostData, k: nat)
    requires Named(h) && k <= |CommentParts(h.comment)| && k <= |Render(h)|
    ensures var parts, found := CommentParts(h.comment), Scan(Comments, Render(h)[k..]);
      (found == parts[k..] <==> forall x <- parts[k..] :: IsRemark(x)) && |found| <= |parts| - k
  {
    var parts := CommentParts(h.comment);
    TrimmedFrom(h.comment, k);
    CommentsFound(parts[k..]);
    TagFacts(h.tags);
    RestFacts(h, Comments);
    ScanFrom(h, k, Comments);
  }

  lemma {:induction false} OwnTags(h: HostData, k: nat)
    requires Named(h) && k <= |CommentParts(h.comment)| && k <= |Render(h)|
    ensures Scan(Tags, Render(h)[k..]) == h.tags <==> forall x <- CommentParts(h.comment)[k..] :: !IsTagLine(x)
  {
    var parts := CommentParts(h.comment);
    TrimmedFrom(h.comment, k);
    TagsFound(parts[k..]);
    TagFacts(h.tags);
    RestFacts(h, Tags);
    ScanFrom(h, k, Tags);
  }

  /** The lines of the host's block in the file afterwards. */
  function ReadAgain(file: Option<string>, oldAlias: string, h: HostData): Option<seq<string>> {
    Block(Lines(Some(Written(Saved(Lines(file), oldAlias, h)))), h.name)
  }

  lemma {:induction false} ReadAgainScan(file: Option<string>, oldAlias: string, h: HostData, f: Field) returns (k: nat)
    requires Named(h) && OneLineValues(h)
    ensures k == OwnStart(CommentParts(h.comment)) && k <= |Render(h)|
    ensures ReadAgain(file, oldAlias, h).Some?
    ensures Scan(f, ReadAgain(file, oldAlias, h).value) == Scan(f, Render(h)[k..])
  {
    LinesOneLine(file);
    SavedOneLine(Lines(file), oldAlias, h);
    Reread(Saved(Lines(file), oldAlias, h), h.name, f);
    SavedBlock(Lines(file), oldAlias, h);
    k := OwnStart(CommentParts(h.comment));
  }

  ghost predicate TrimmedEach(found: seq<string>, parts: seq<string>) {
    |found| == |parts| && forall i :: 0 <= i < |parts| ==> found[i] == TrimSpace(parts[i])
  }

  /** A line of a comment that does not look like tags. */
  ghost predicate IsProse(line: string) {
    exists w <- Fields(line) :: !HasPrefix(w, "#")
  }

  /** The round trip of a comment through the file: its lines come back, trimmed one by one, exactly if each of
      them has a word that does not start with `#`. (A blank line among them cuts off the part above it; a
      line of `#words` comes back as tags.) */
  lemma {:induction false} CommentThroughFile(file: Option<string>, oldAlias: string, h: HostData, pre: seq<string>,
                                              parts: seq<string>, post: seq<string>)
    requires Named(h) && OneLineValues(h) && Typed(h.comment, pre, parts, post)
    ensures ReadAgain(file, oldAlias, h).Some?
    ensures TrimmedEach(Scan(Comments, ReadAgain(file, oldAlias, h).value), parts) <==>
            forall i :: 0 <= i < |parts| ==> IsProse(parts[i])
  {
    var k := ReadAgainScan(file, oldAlias, h, Comments);
    CommentLines(h.comment, pre, parts, post);
    OwnComments(h, k);
    CommentBack(parts, CommentParts(h.comment), k, Scan(Comments, Render(h)[k..]));
  }

  lemma {:induction false} CommentBack(parts: seq<string>, saved: seq<string>, k: nat, found: seq<string>)
    requires TrimmedEach(saved, parts) && k == OwnStart(saved) && |found| <= |saved| - k
    requires found == saved[k..] <==> forall x <- saved[k..] :: IsRemark(x)
    ensures TrimmedEach(found, parts) <==> forall i :: 0 <= i < |parts| ==> IsProse(parts[i])
  {
    forall i | 0 <= i < |parts| ensures IsProse(parts[i]) <==> IsRemark(saved[i]) {
      RemarkIff(parts[i]);
    }
    if k > 0 {
      assert !IsRemark(saved[k - 1]);
      assert !IsProse(parts[k - 1]);
    } else {
      assert saved[k..] == saved;
      assert TrimmedEach(found, parts) <==> found == saved;
      assert (forall x <- saved :: IsRemark(x)) <==> forall i :: 0 <= i < |saved| ==> IsRemark(saved[i]);
    }
  }

  /** The round trip of the tags: exactly these come back, in order, if and only if each comment line below the
      last blank one has a word that does not start with `#`. */
  lemma {:induction false} TagsThroughFile(file: Option<string>, oldAlias: string, h: HostData, pre: seq<string>,
                                           parts: seq<string>, post: seq<string>)
    requires Named(h) && OneLineValues(h) && Typed(h.comment, pre, parts, post)
    ensures ReadAgain(file, oldAlias, h).Some?
    ensures Scan(Tags, ReadAgain(file, oldAlias, h).value) == h.tags <==>
            forall i :: 0 <= i < |parts| && (forall j :: i <= j < |parts| ==> !Blank(parts[j])) ==> IsProse(parts[i])
  {
    var k := ReadAgainScan(file, oldAlias, h, Tags);
    CommentLines(h.comment, pre, parts, post);
    OwnTags(h, k);
    TagsBack(parts, CommentParts(h.comment), k);
  }

  lemma {:induction false} TagsBack(parts: seq<string>, saved: seq<string>, k: nat)
    requires TrimmedEach(saved, parts) && k == OwnStart(saved)
    ensures (forall x <- saved[k..] :: !IsTagLine(x)) <==>
            forall i :: 0 <= i < |parts| && (forall j :: i <= j < |parts| ==> !Blank(parts[j])) ==> IsProse(parts[i])
  {
    forall i | 0 <= i < |parts|
      ensures k <= i ==> !Blank(parts[i]) && (IsProse(parts[i]) <==> !IsTagLine(saved[i]))
      ensures k <= i <==> forall j :: i <= j < |parts| ==> !Blank(parts[j])
    {
      BelowBlank(parts, saved, k, i);
    }
    EachFrom(saved, k);
    if forall i :: k <= i < |saved| ==> !IsTagLine(saved[i]) {
      forall i | 0 <= i < |parts| && (forall j :: i <= j < |parts| ==> !Blank(parts[j])) ensures IsProse(parts[i]) {
        assert k <= i;
      }
    }
  }

  lemma {:induction false} BelowBlank(parts: seq<string>, saved: seq<string>, k: nat, i: nat)
    requires TrimmedEach(saved, parts) && k == OwnStart(saved) && i < |parts|
    ensures k <= i ==> !Blank(parts[i]) && (IsProse(parts[i]) <==> !IsTagLine(saved[i]))
    ensures k <= i <==> forall j :: i <= j < |parts| ==> !Blank(parts[j])
  {
    if k <= i {
      SavedProse(parts[i], saved[i]);
      forall j | i <= j < |parts| ensures !Blank(parts[j]) {
        BlankIff(parts[j]);
      }
    } else {
      BlankIff(parts[k - 1]);
    }
  }

  lemma {:induction false} SavedProse(line: string, saved: string)
    requires saved == TrimSpace(line) && saved != ""
    ensures IsProse(line) <==> !IsTagLine(saved)
  {
    RemarkIff(line);
  }

  lemma {:induction false} EachFrom(saved: seq<string>, k: nat)
    requires k <= |saved|
    ensures (forall x <- saved[k..] :: !IsTagLine(x)) <==> forall i :: k <= i < |saved| ==> !IsTagLine(saved[i])
  {
    forall i | k <= i < |saved| ensures saved[i] in saved[k..] {
      assert saved[k..][i - k] == saved[i];
    }
  }

  // ---- Forward rules ----

  /** The rules are the lines at the positions `at`, trimmed: in order, all lines that have text and do not
      start with `#`, and no others. */
  ghost predicate Picks(lines: seq<string>, at: seq<nat>, rules: seq<string>) {
    && |at| == |rules|
    && (forall k :: 0 <= k < |at| ==> at[k] < |lines| && rules[k] == TrimSpace(lines[at[k]]))
    && (forall k, l :: 0 <= k < l < |at| ==> at[k] < at[l])
    && (forall i: nat :: i in at <==> i < |lines| && var t := TrimSpace(lines[i]); t != "" && t[0] != '#')
  }

  lemma {:induction false} RulesAppend(lines: seq<string>, line: string)
    ensures RulesOf(lines + [line]) == RulesOf(lines) + RulesOf([line])
    decreases |lines|
  {
    if lines == [] {
      assert lines + [line] == [line];
    } else {
      assert (lines + [line])[1..] == lines[1..] + [line];
      RulesAppend(lines[1..], line);
    }
  }

  lemma {:induction false} RulesPick(lines: seq<string>) returns (at: seq<nat>)
    ensures Picks(lines, at, RulesOf(lines))
    decreases |lines|
  {
    if lines == [] {
      at := [];
    } else {
      var front, n := lines[..|lines| - 1], |lines| - 1;
      var before := RulesPick(front);
      assert lines == front + [lines[n]];
      RulesAppend(front, lines[n]);
      RulesOne(lines[n]);
      at := PickNext(front, lines[n], before, RulesOf(front), RulesOf([lines[n]]));
    }
  }

  lemma {:induction false} RulesOne(line: string)
    ensures var t := TrimSpace(line); RulesOf([line]) == if t != "" && t[0] != '#' then [t] else []
  {
    assert [line][1..] == [];
    var t := TrimSpace(line);
    assert [t] + [] == [t];
  }

  lemma {:induction false} PickNext(front: seq<string>, line: string, before: seq<nat>, rules: seq<string>,
                                    more: seq<string>) returns (at: seq<nat>)
    requires Picks(front, before, rules)
    requires var t := TrimSpace(line); more == if t != "" && t[0] != '#' then [t] else []
    ensures Picks(front + [line], at, rules + more)
  {
    if more == [] {
      at := before;
      assert rules + more == rules;
    } else {
      at := before + [|front|];
    }
  }

  /** The text of a forward field as it was typed. */
  function TextOf(f: Field, h: HostData): string
    requires IsForward(f)
  {
    match f
    case Local => h.localForward
    case Remote => h.remoteForward
    case _ => h.dynamicForward
  }

  /** The round trip of the forward rules through the file, whatever the comment is. */
  lemma {:induction false} RulesThroughFile(file: Option<string>, oldAlias: string, h: HostData, f: Field,
                                            lines: seq<string>) returns (at: seq<nat>)
    requires Named(h) && OneLineValues(h) && IsForward(f)
    requires TextOf(f, h) == Join(lines, '\n') && OneLineEach(lines) && lines != []
    ensures ReadAgain(file, oldAlias, h).Some?
    ensures Picks(lines, at, Scan(f, ReadAgain(file, oldAlias, h).value))
  {
    var k := ReadAgainScan(file, oldAlias, h, f);
    SplitJoin(lines, '\n');
    at := RulesPick(lines);
    OwnRules(h, k, f);
  }

  lemma {:induction false} OwnRules(h: HostData, k: nat, f: Field)
    requires Named(h) && IsForward(f) && k <= |CommentParts(h.comment)| && k <= |Render(h)|
    ensures Scan(f, Render(h)[k..]) == Rules(TextOf(f, h))
  {
    var parts := CommentParts(h.comment);
    TrimmedFrom(h.comment, k);
    NoForwards(parts[k..], f);
    TagFacts(h.tags);
    RestFacts(h, f);
    ScanFrom(h, k, f);
  }

  lemma {:induction false} NoForwards(parts: seq<string>, f: Field)
    requires IsForward(f) && forall x <- parts :: Trimmed(x)
    ensures Scan(f, Prefixed("### ", parts)) == []
    decreases |parts|
  {
    if parts != [] {
      var x := parts[0];
      assert x in parts;
      if x == "" {
        EmptyMarker();
        assert "### " + "" == "### ";
      } else {
        MarkerFacts(x);
      }
      NoForwards(parts[1..], f);
    }
  }

  // ---- Any line of any file ----

  /** A forward line is found in any letter case, behind any white space. */
  lemma {:induction false} ForwardAnyCase(a: string, k: string, v: string, f: Field)
    requires Blank(a) && k != "" && SpaceFree(k)
    requires IsForward(f)
    requires ToLower(k) ==
             match f case Local => "localforward" case Remote => "remoteforward" case _ => "dynamicforward"
    ensures Part(f, a + k + " " + v) == if Blank(v) then [] else [TrimSpace(v)]
  {
    if Blank(v) {
      ForwardBlank(a, k, v, a + k + " " + v);
    } else {
      ForwardText(a, k, v, a + k + " " + v);
    }
  }

  lemma {:induction false} ForwardBlank(a: string, k: string, v: string, line: string)
    requires Blank(a) && Blank(v) && k != "" && SpaceFree(k) && line == a + k + " " + v
    ensures Forward(ToLower(k), TrimSpace(line)) == []
  {
    assert k[0] in k && k[|k| - 1] in k;
    assert line == a + k + (" " + v);
    TrimIs(a, k, " " + v);
  }

  lemma {:induction false} ForwardText(a: string, k: string, v: string, line: string)
    requires Blank(a) && !Blank(v) && k != "" && SpaceFree(k) && line == a + k + " " + v
    ensures Forward(ToLower(k), TrimSpace(line)) == [TrimSpace(v)]
  {
    assert k[0] in k;
    var x, y := TrimParts(v);
    BlankIff(v);
    var t := k + " " + x + TrimSpace(v);
    assert line == a + t + y;
    TrimIs(a, t, y);
    ForwardTrimmed(k, x, TrimSpace(v), t);
  }

  lemma {:induction false} ForwardTrimmed(k: string, x: string, v: string, t: string)
    requires t == k + " " + x + v && Blank(x) && Trimmed(v) && v != ""
    ensures Forward(ToLower(k), t) == [v]
  {
    assert ToLower(t)[..|k| + 1] == ToLower(k) + " ";
    assert t[|k| + 1..] == x + v + "";
    TrimIs(x, v, "");
  }

  /** What a line with a marker says: tags if all of its words start with `#`, else a line of the comment. */
  lemma {:induction false} MarkerLine(a: string, x: string, b: string)
    requires Blank(a) && Blank(b) && x != "" && !IsSpace(x[|x| - 1])
    ensures IsProse(x) ==> Part(Comments, a + "### " + x + b) == [x] && Part(Tags, a + "### " + x + b) == []
    ensures !IsProse(x) ==> Part(Comments, a + "### " + x + b) == []
    ensures var tags := Part(Tags, a + "### " + x + b);
      !IsProse(x) ==> |tags| == |Fields(x)| && forall i :: 0 <= i < |tags| ==> "#" + tags[i] == Fields(x)[i]
  {
    var t := "### " + x;
    assert a + "### " + x + b == a + t + b;
    TrimIs(a, t, b);
    assert t[..4] == "### " && t[4..] == x;
    assert x[|x| - 1] in x;
    HasWords(x);
    if !IsProse(x) {
      UnhashedAt(Fields(x));
    }
  }

  lemma {:induction false} HasWords(x: string)
    requires !Blank(x)
    ensures Fields(x) != []
    decreases |x|
  {
    if IsSpace(x[0]) {
      assert x == [x[0]] + x[1..];
      HasWords(x[1..]);
    }
  }

  lemma {:induction false} UnhashedAt(words: seq<string>)
    requires forall w <- words :: HasPrefix(w, "#")
    ensures |Unhashed(words)| == |words| && forall i :: 0 <= i < |words| ==> "#" + Unhashed(words)[i] == words[i]
    decreases |words|
  {
    if words != [] {
      assert HasPrefix(words[0], "#");
      assert "#" + words[0][1..] == words[0];
      UnhashedAt(words[1..]);
    }
  }
}
