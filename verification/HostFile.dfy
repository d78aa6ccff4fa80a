/** The ssh_config file on disk: what is written is what is read back, save for white space at both
    ends, and that changes no block. */
module HostFile {
  import opened Basics
  import opened Text
  import opened HostBlocks
  import opened ConfigLines
  import opened HostText
  import opened HostRoundTrip
  import opened HostSplice
  import opened HostSave

  /** The lines of the file; a missing file has none. */
  function Lines(file: Option<string>): seq<string> {
    match file
    case None => []
    case Some(data) => Split(TrimSpace(data), '\n')
  }

  function Terminated(lines: seq<string>): string {
    if lines == [] then "" else lines[0] + "\n" + Terminated(lines[1..])
  }

  function Written(lines: seq<string>): string {
    Terminated(lines) + "\n"
  }

  method ReadConfigLines(file: Option<string>) returns (lines: seq<string>)
    ensures lines == Lines(file)
  {
    if file == None {
      return [];
    }
    return Split(TrimSpace(file.value), '\n');
  }

  method WriteConfigLines(lines: seq<string>) returns (data: string)
    ensures data == Written(lines)
  {
    data := "";
    for i := 0 to |lines|
      invariant data + Terminated(lines[i..]) == Terminated(lines)
    {
      assert lines[i..][1..] == lines[i + 1..];
      ConcatAssoc(data, lines[i] + "\n", Terminated(lines[i + 1..]));
      ConcatAssoc(data, lines[i], "\n");
      data := data + lines[i];
      data := data + "\n";
    }
    data := data + "\n";
  }

  /** What is read: the lines of the file without white space at its ends; none if there is no file. */
  lemma {:induction false} LinesAre(data: string)
    ensures Lines(None) == []
    ensures Join(Lines(Some(data)), '\n') == TrimSpace(data) && Lines(Some(data)) != []
    ensures forall l <- Lines(Some(data)) :: '\n' !in l
  {
    JoinSplit(TrimSpace(data), '\n');
  }

  // ---- Terminated and joined lines ----

  lemma {:induction false} TerminatedIsJoined(lines: seq<string>)
    requires lines != []
    ensures Terminated(lines) == Join(lines, '\n') + "\n"
    decreases |lines|
  {
    if |lines| > 1 {
      TerminatedIsJoined(lines[1..]);
    } else {
      assert Terminated(lines[1..]) == "";
    }
  }

  /** What is written: the lines, each followed by a newline, and one newline more. */
  lemma {:induction false} WrittenIs(lines: seq<string>)
    ensures Written(lines) == if lines == [] then "\n" else Join(lines, '\n') + "\n\n"
  {
    if lines != [] {
      TerminatedIsJoined(lines);
    }
  }

  /** Reading a written file gives back the lines that were read. */
  lemma {:induction false} ReadWritten(data: string)
    ensures Lines(Some(Written(Lines(Some(data))))) == Lines(Some(data))
  {
    var t := TrimSpace(data);
    var lines := Split(t, '\n');
    TerminatedIsJoined(lines);
    JoinSplit(t, '\n');
    TrimTwice(data);
    assert Written(lines) == "" + t + "\n\n";
    TrimIs("", t, "\n\n");
  }

  lemma {:induction false} TerminatedAppend(a: seq<string>, b: seq<string>)
    ensures Terminated(a + b) == Terminated(a) + Terminated(b)
    decreases |a|
  {
    if a == [] {
      assert a + b == b;
    } else {
      assert (a + b)[1..] == a[1..] + b;
      TerminatedAppend(a[1..], b);
      ConcatAssoc(a[0] + "\n", Terminated(a[1..]), Terminated(b));
    }
  }

  predicate AllBlank(lines: seq<string>) {
    forall l <- lines :: Blank(l)
  }

  lemma {:induction false} TerminatedBlank(lines: seq<string>)
    requires AllBlank(lines)
    ensures Blank(Terminated(lines))
    decreases |lines|
  {
    if lines != [] {
      assert lines[0] in lines;
      TerminatedBlank(lines[1..]);
    }
  }

  lemma {:induction false} Regroup(x: string, a: string, t: string, b: string, y: string)
    ensures x + (a + t + b + "\n") + y + "\n" == (x + a) + t + (b + "\n" + y + "\n")
  {
  }

  lemma {:induction false} BlankAround(x: string, a: string, b: string, y: string)
    requires Blank(x) && Blank(a) && Blank(b) && Blank(y)
    ensures Blank(x + a) && Blank(b + "\n" + y + "\n")
  {
  }

  /** Blank lines at both ends are trimmed away. */
  lemma {:induction false} TrimOuter(pre: seq<string>, mid: seq<string>, post: seq<string>)
    requires AllBlank(pre) && AllBlank(post) && mid != []
    ensures TrimSpace(Written(pre + mid + post)) == TrimSpace(Join(mid, '\n'))
  {
    var a, b := TrimParts(Join(mid, '\n'));
    var t := TrimSpace(Join(mid, '\n'));
    var x, y := Terminated(pre), Terminated(post);
    TerminatedAppend(pre + mid, post);
    TerminatedAppend(pre, mid);
    TerminatedIsJoined(mid);
    TerminatedBlank(pre);
    TerminatedBlank(post);
    Regroup(x, a, t, b, y);
    BlankAround(x, a, b, y);
    TrimIs(x + a, t, b + "\n" + y + "\n");
  }

  lemma {:induction false} TrimLeftAppend(s: string, x: string)
    requires !Blank(s)
    ensures TrimLeft(s + x) == TrimLeft(s) + x
    decreases |s|
  {
    if IsSpace(s[0]) {
      assert (s + x)[1..] == s[1..] + x;
      TrimLeftAppend(s[1..], x);
    }
  }

  lemma {:induction false} TrimRightAppend(x: string, s: string)
    requires !Blank(s)
    ensures TrimRight(x + s) == x + TrimRight(s)
    decreases |s|
  {
    assert s != "";
    if IsSpace(s[|s| - 1]) {
      assert (x + s)[..|x + s| - 1] == x + s[..|s| - 1];
      assert s == s[..|s| - 1] + [s[|s| - 1]];
      TrimRightAppend(x, s[..|s| - 1]);
    }
  }

  lemma {:induction false} TrimLeftJoined(lines: seq<string>)
    requires lines != [] && !Blank(lines[0])
    ensures TrimLeft(Join(lines, '\n')) == Join([TrimLeft(lines[0])] + lines[1..], '\n')
  {
    if |lines| > 1 {
      var rest := ['\n'] + Join(lines[1..], '\n');
      assert Join(lines, '\n') == lines[0] + rest;
      TrimLeftAppend(lines[0], rest);
      assert ([TrimLeft(lines[0])] + lines[1..])[1..] == lines[1..];
    }
  }

  lemma {:induction false} TrimRightJoined(lines: seq<string>)
    requires lines != [] && !Blank(lines[|lines| - 1])
    ensures var n := |lines| - 1;
      TrimRight(Join(lines, '\n')) == Join(lines[..n] + [TrimRight(lines[n])], '\n')
  {
    var n := |lines| - 1;
    var last := lines[n];
    if n > 0 {
      assert lines == lines[..n] + [last];
      JoinAppend(lines[..n], [last], '\n');
      JoinAppend(lines[..n], [TrimRight(last)], '\n');
      TrimRightAppend(Join(lines[..n], '\n') + ['\n'], last);
    }
  }

  // ---- Lines that differ in outer white space ----

  ghost predicate SameTrims(a: seq<string>, b: seq<string>) {
    |a| == |b| && forall i :: 0 <= i < |a| ==> TrimSpace(a[i]) == TrimSpace(b[i])
  }

  lemma {:induction false} SameTrimsSame(a: seq<string>, b: seq<string>, f: Reading)
    requires SameTrims(a, b)
    ensures Kinds(a) == Kinds(b) && Scan(f, a) == Scan(f, b)
    decreases |a|
  {
    if a != [] {
      assert TrimSpace(a[0]) == TrimSpace(b[0]);
      assert SameTrims(a[1..], b[1..]);
      SameTrimsSame(a[1..], b[1..], f);
    }
  }

  lemma {:induction false} TrimOneSide(s: string)
    ensures TrimSpace(TrimLeft(s)) == TrimSpace(s) && TrimSpace(TrimRight(s)) == TrimSpace(s)
  {
    var a, b := TrimParts(s);
    var t := TrimSpace(s);
    if t == "" {
      TrimLeftIs(s, "");
      TrimRightIs("", s);
      assert s + "" == s == "" + s;
    } else {
      assert s == a + (t + b);
      TrimLeftIs(a, t + b);
      TrimIs("", t, b);
      assert "" + t + b == t + b;
      TrimRightIs(a + t, b);
      TrimIs(a, t, "");
      assert a + t + "" == a + t;
    }
  }

  predicate OneLineEach(lines: seq<string>) {
    forall l <- lines :: '\n' !in l
  }

  lemma {:induction false} StillOneLine(mid: seq<string>, la: string, left: seq<string>, rb: string, both: seq<string>)
    requires OneLineEach(mid) && |left| == |mid| == |both| > 0
    requires mid[0] == la + left[0] && left[1..] == mid[1..]
    requires var n := |mid| - 1; left[n] == both[n] + rb && both[..n] == left[..n]
    ensures OneLineEach(both)
  {
    forall i | 0 <= i < |left| ensures '\n' !in left[i] {
      if i == 0 {
        assert forall c <- left[0] :: c in mid[0];
      } else {
        assert left[i] == left[1..][i - 1] == mid[1..][i - 1];
      }
    }
    var n := |mid| - 1;
    forall i | 0 <= i < |both| ensures '\n' !in both[i] {
      if i == n {
        assert forall c <- both[n] :: c in left[n];
      } else {
        assert both[i] == both[..n][i] == left[..n][i];
      }
    }
  }

  /** Lines whose first and last have text are read back with only outer white space gone. */
  lemma {:induction false} RereadCore(mid: seq<string>)
    requires mid != [] && OneLineEach(mid) && !Blank(mid[0]) && !Blank(mid[|mid| - 1])
    ensures SameTrims(Split(TrimSpace(Join(mid, '\n')), '\n'), mid)
  {
    var n := |mid| - 1;
    var left := [TrimLeft(mid[0])] + mid[1..];
    TrimLeftJoined(mid);
    TrimOneSide(mid[0]);
    BlankIff(mid[0]);
    BlankIff(TrimLeft(mid[0]));
    TrimRightJoined(left);
    TrimOneSide(left[n]);
    var both := left[..n] + [TrimRight(left[n])];
    var la := TrimLeftParts(mid[0]);
    var rb := TrimRightParts(left[n]);
    StillOneLine(mid, la, left, rb, both);
    SplitJoin(both, '\n');
  }

  lemma {:induction false} BlankLines(lines: seq<string>, f: Reading)
    requires AllBlank(lines)
    ensures AllPlain(lines) && Scan(f, lines) == []
    decreases |lines|
  {
    if lines != [] {
      assert lines[0] in lines;
      BlankIff(lines[0]);
      BlankLine();
      TrimIs("", "", "");
      BlankLines(lines[1..], f);
    }
  }

  lemma {:induction false} KindsOfThree(a: seq<string>, b: seq<string>, c: seq<string>)
    ensures Kinds(a + b + c) == Kinds(a) + Kinds(b) + Kinds(c)
  {
    KindsAppend(a + b, c);
    KindsAppend(a, b);
  }

  lemma {:induction false} InnerLines(pre: seq<string>, mid: seq<string>, post: seq<string>, q: Range, all: seq<string>)
    requires all == pre + mid + post && q.start <= q.end <= |mid|
    ensures all[q.start + |pre|..q.end + |pre|] == mid[q.start..q.end]
    ensures q.end == |mid| ==> all[q.start + |pre|..|all|] == mid[q.start..q.end] + post
  {
  }

  lemma {:induction false} OuterRange(pre: seq<string>, mid: seq<string>, post: seq<string>, alias: string, q: Range,
                                      all: seq<string>, r: Range)
    requires AllPlain(pre) && AllPlain(post) && all == pre + mid + post && IsBlock(Kinds(mid), alias, q)
    requires r == Range(q.start + |pre|, q.host + |pre|, if q.end == |mid| then |all| else q.end + |pre|)
    ensures IsBlock(Kinds(all), alias, r)
  {
    var a, m, z, s := Kinds(pre), Kinds(mid), Kinds(post), Kinds(all);
    assert s == a + m + z by {
      KindsOfThree(pre, mid, post);
    }
    SurroundedIn(a, m, z, alias, q, s, r);
  }

  lemma {:induction false} SurroundedIn(a: seq<LineKind>, m: seq<LineKind>, z: seq<LineKind>, alias: string, q: Range,
                                        s: seq<LineKind>, r: Range)
    requires IsBlock(m, alias, q) && s == a + m + z
    requires (forall i :: 0 <= i < |a| ==> a[i] == Plain) && (forall i :: 0 <= i < |z| ==> z[i] == Plain)
    requires r == Range(q.start + |a|, q.host + |a|, if q.end == |m| then |s| else q.end + |a|)
    ensures IsBlock(s, alias, r)
  {
    Surrounded(a, m, z, alias, q, s);
  }

  lemma {:induction false} OuterFound(pre: seq<string>, mid: seq<string>, post: seq<string>, alias: string, q: Range,
                                      all: seq<string>)
    requires AllPlain(pre) && AllPlain(post) && all == pre + mid + post && IsBlock(Kinds(mid), alias, q)
    ensures q.end < |mid| ==> Block(all, alias) == Some(mid[q.start..q.end])
    ensures q.end == |mid| ==> Block(all, alias) == Some(mid[q.start..q.end] + post)
  {
    var r := Range(q.start + |pre|, q.host + |pre|, if q.end == |mid| then |all| else q.end + |pre|);
    OuterRange(pre, mid, post, alias, q, all, r);
    BlockIs(all, alias, r);
    InnerLines(pre, mid, post, q, all);
  }

  lemma {:induction false} OuterScan(pre: seq<string>, mid: seq<string>, post: seq<string>, alias: string, f: Reading,
                                     all: seq<string>, q: Range)
    requires AllBlank(pre) && AllBlank(post) && all == pre + mid + post && IsBlock(Kinds(mid), alias, q)
    ensures Block(all, alias).Some? && Scan(f, Block(all, alias).value) == Scan(f, mid[q.start..q.end])
  {
    BlankLines(pre, f);
    BlankLines(post, f);
    OuterFound(pre, mid, post, alias, q, all);
    ScanAppend(f, mid[q.start..q.end], post);
  }

  lemma {:induction false} OuterNone(pre: seq<string>, mid: seq<string>, post: seq<string>, alias: string,
                                     all: seq<string>)
    requires AllBlank(pre) && AllBlank(post) && all == pre + mid + post && NoHost(Kinds(mid), |mid|, alias)
    ensures Block(all, alias) == None
  {
    BlankLines(pre, Tags);
    BlankLines(post, Tags);
    KindsOfThree(pre, mid, post);
    NoHostInThree(Kinds(pre), Kinds(mid), Kinds(post), Kinds(all), alias);
    NoBlock(all, alias);
  }

  lemma {:induction false} NoHostInThree(a: seq<LineKind>, m: seq<LineKind>, z: seq<LineKind>, s: seq<LineKind>,
                                         alias: string)
    requires s == a + m + z && NoHost(m, |m|, alias)
    requires (forall i :: 0 <= i < |a| ==> a[i] == Plain) && (forall i :: 0 <= i < |z| ==> z[i] == Plain)
    ensures NoHost(s, |s|, alias)
  {
  }

  /** Blank lines at both ends change neither which hosts are found nor what they say. */
  lemma {:induction false} OuterBlanks(pre: seq<string>, mid: seq<string>, post: seq<string>, alias: string, f: Reading,
                                       all: seq<string>)
    requires AllBlank(pre) && AllBlank(post) && all == pre + mid + post
    ensures Block(all, alias).Some? == Block(mid, alias).Some?
    ensures Block(mid, alias).Some? ==> Scan(f, Block(all, alias).value) == Scan(f, Block(mid, alias).value)
  {
    var r := Find(Kinds(mid), alias);
    if r.None? {
      OuterNone(pre, mid, post, alias, all);
    } else {
      OuterScan(pre, mid, post, alias, f, all, r.value);
    }
  }

  lemma {:induction false} SameBlocks(a: seq<string>, b: seq<string>, alias: string, f: Reading)
    requires SameTrims(a, b)
    ensures Block(a, alias).Some? == Block(b, alias).Some?
    ensures Block(a, alias).Some? ==> Scan(f, Block(a, alias).value) == Scan(f, Block(b, alias).value)
  {
    SameTrimsSame(a, b, f);
    var r := Find(Kinds(a), alias);
    if r.Some? {
      SameTrimsSame(a[r.value.start..r.value.end], b[r.value.start..r.value.end], f);
    }
  }

  lemma {:induction false} DropBlanks(lines: seq<string>) returns (pre: seq<string>, rest: seq<string>)
    ensures lines == pre + rest && AllBlank(pre) && (rest != [] ==> !Blank(rest[0]))
    decreases |lines|
  {
    if lines != [] && Blank(lines[0]) {
      pre, rest := DropBlanks(lines[1..]);
      assert lines == [lines[0]] + lines[1..];
      ConcatAssoc([lines[0]], pre, rest);
      pre := [lines[0]] + pre;
    } else {
      pre, rest := [], lines;
    }
  }

  lemma {:induction false} CutBlanks(lines: seq<string>) returns (rest: seq<string>, post: seq<string>)
    ensures lines == rest + post && AllBlank(post) && (rest != [] ==> !Blank(rest[|rest| - 1]))
    decreases |lines|
  {
    if lines != [] && Blank(lines[|lines| - 1]) {
      var last := [lines[|lines| - 1]];
      rest, post := CutBlanks(lines[..|lines| - 1]);
      assert lines == lines[..|lines| - 1] + last;
      ConcatAssoc(rest, post, last);
      post := post + last;
    } else {
      rest, post := lines, [];
    }
  }

  /** Main result on files. Whatever one-line lines are written, reading them back finds the same
      hosts, and their blocks say the same. */
  lemma {:induction false} Reread(lines: seq<string>, alias: string, f: Reading)
    requires OneLineEach(lines)
    ensures var again := Lines(Some(Written(lines)));
      && Block(again, alias).Some? == Block(lines, alias).Some?
      && (Block(lines, alias).Some? ==> Scan(f, Block(again, alias).value) == Scan(f, Block(lines, alias).value))
  {
    var pre, rest := DropBlanks(lines);
    var mid, post := CutBlanks(rest);
    ConcatAssoc(pre, mid, post);
    if mid == [] {
      RereadBlank(lines, alias);
    } else {
      assert mid[0] == rest[0];
      assert forall l <- mid :: l in lines;
      TrimOuter(pre, mid, post);
      RereadCore(mid);
      SameBlocks(Lines(Some(Written(lines))), mid, alias, f);
      OuterBlanks(pre, mid, post, alias, f, lines);
    }
  }

  lemma {:induction false} RereadBlank(lines: seq<string>, alias: string)
    requires AllBlank(lines)
    ensures Block(lines, alias) == None && Block(Lines(Some(Written(lines))), alias) == None
  {
    BlankLines(lines, Tags);
    NoBlock(lines, alias);
    TerminatedBlank(lines);
    BlankIff(Written(lines));
    assert Split("", '\n') == [""];
    BlankLines([""], Tags);
    NoBlock([""], alias);
  }

  // ---- Saving through the file ----

  /** The values that are written as they are fit on a line. */
  predicate OneLineValues(h: HostData) {
    && '\n' !in h.hostName
    && (forall p <- Connection(h) :: '\n' !in p.1)
    && (forall p <- Checking(h) :: '\n' !in p.1)
  }

  lemma {:induction false} OneLineAppend(a: seq<string>, b: seq<string>)
    requires OneLineEach(a) && OneLineEach(b)
    ensures OneLineEach(a + b)
  {
  }

  lemma {:induction false} NoNewline(s: string)
    requires SpaceFree(s)
    ensures '\n' !in s
  {
  }

  lemma {:induction false} PrefixedOneLine(p: string, lines: seq<string>)
    requires '\n' !in p && OneLineEach(lines)
    ensures OneLineEach(Prefixed(p, lines))
    decreases |lines|
  {
    if lines != [] {
      assert lines[0] in lines;
      PrefixedOneLine(p, lines[1..]);
    }
  }

  lemma {:induction false} TrimmedOneLine(s: string)
    requires '\n' !in s
    ensures '\n' !in TrimSpace(s)
  {
    var a, b := TrimParts(s);
    assert forall c <- TrimSpace(s) :: c in s;
  }

  lemma {:induction false} TrimAllOneLine(lines: seq<string>)
    requires OneLineEach(lines)
    ensures OneLineEach(TrimAll(lines)) && OneLineEach(RulesOf(lines))
    decreases |lines|
  {
    if lines != [] {
      assert lines[0] in lines;
      TrimmedOneLine(lines[0]);
      TrimAllOneLine(lines[1..]);
    }
  }

  lemma {:induction false} JoinOneLine(parts: seq<string>)
    requires OneLineEach(parts)
    ensures '\n' !in Join(parts, ' ')
    decreases |parts|
  {
    if parts != [] {
      assert parts[0] in parts;
      JoinOneLine(parts[1..]);
    }
  }

  lemma {:induction false} HeadOneLine(h: HostData)
    requires Named(h)
    ensures OneLineEach(Head(h))
  {
    JoinSplit(TrimSpace(h.comment), '\n');
    TrimAllOneLine(Split(TrimSpace(h.comment), '\n'));
    PrefixedOneLine("### ", CommentParts(h.comment));
    forall t | t in h.tags ensures '\n' !in t {
      NoNewline(t);
    }
    PrefixedOneLine("#", h.tags);
    JoinOneLine(Prefixed("#", h.tags));
  }

  lemma {:induction false} OptionOneLine(settings: seq<(string, string)>)
    requires forall p <- settings :: Inert(p.0) && '\n' !in p.1
    ensures OneLineEach(OptionLines(settings))
    decreases |settings|
  {
    if settings != [] {
      assert settings[0] in settings;
      NoNewline(settings[0].0);
      OptionOneLine(settings[1..]);
    }
  }

  lemma {:induction false} RulesOneLine(key: string, text: string)
    requires '\n' !in key
    ensures OneLineEach(Prefixed(key, Rules(text)))
  {
    JoinSplit(text, '\n');
    TrimAllOneLine(Split(text, '\n'));
    PrefixedOneLine(key, Rules(text));
  }

  lemma {:induction false} FirstOneLine(v: string, line: string)
    requires '\n' !in v && line == OptionLine("HostName", v)
    ensures '\n' !in line
  {
    assert SpaceFree("HostName");
  }

  lemma {:induction false} ThreeOneLine(a: seq<string>, b: seq<string>, c: seq<string>)
    requires OneLineEach(a) && OneLineEach(b) && OneLineEach(c)
    ensures OneLineEach(a + b + c)
  {
    OneLineAppend(a, b);
    OneLineAppend(a + b, c);
  }

  lemma {:induction false} OptionsOneLine(h: HostData)
    requires OneLineValues(h)
    ensures OneLineEach(Options(h))
  {
    ConnectionInert(h);
    CheckingInert(h);
    OptionOneLine(Connection(h));
    OptionOneLine(Checking(h));
    var first := OptionLine("HostName", h.hostName);
    FirstOneLine(h.hostName, first);
    ThreeOneLine([first], OptionLines(Connection(h)), OptionLines(Checking(h)));
  }

  lemma {:induction false} ForwardsOneLine(h: HostData)
    ensures OneLineEach(Forwards(h))
  {
    RulesOneLine(LOCAL, h.localForward);
    RulesOneLine(REMOTE, h.remoteForward);
    RulesOneLine(DYNAMIC, h.dynamicForward);
    ThreeOneLine(Prefixed(LOCAL, Rules(h.localForward)), Prefixed(REMOTE, Rules(h.remoteForward)),
                 Prefixed(DYNAMIC, Rules(h.dynamicForward)));
  }

  lemma {:induction false} RestOneLine(h: HostData)
    requires OneLineValues(h)
    ensures OneLineEach(Rest(h))
  {
    OptionsOneLine(h);
    ForwardsOneLine(h);
    ThreeOneLine(Options(h), Forwards(h), [""]);
  }

  lemma {:induction false} NameOneLine(name: string, line: string)
    requires '\n' !in name && line == "Host " + name
    ensures '\n' !in line
  {
  }

  lemma {:induction false} RenderOneLine(h: HostData)
    requires Named(h) && OneLineValues(h)
    ensures OneLineEach(Render(h))
  {
    HeadOneLine(h);
    NoNewline(h.name);
    RestOneLine(h);
    NameOneLine(h.name, "Host " + h.name);
    ThreeOneLine(Head(h), ["Host " + h.name], Rest(h));
  }

  lemma {:induction false} SpliceOneLine(lines: seq<string>, r: Range, m: seq<string>)
    requires OneLineEach(lines) && OneLineEach(m) && r.start <= r.end <= |lines|
    ensures OneLineEach(Splice(lines, r, m))
  {
    OneLineAppend(lines[..r.start], m);
    OneLineAppend(lines[..r.start] + m, lines[r.end..]);
  }

  lemma {:induction false} PlacedOneLine(lines: seq<string>, name: string, m: seq<string>)
    requires OneLineEach(lines) && OneLineEach(m)
    ensures OneLineEach(Placed(lines, name, m))
  {
    match Find(Kinds(lines), name) {
      case Some(r) =>
        SpliceOneLine(lines, r, m);
      case None =>
        OneLineAppend(lines, Pad(lines));
        OneLineAppend(lines + Pad(lines), m);
    }
  }

  lemma {:induction false} RemovedOneLine(lines: seq<string>, alias: string)
    requires OneLineEach(lines)
    ensures OneLineEach(Removed(lines, alias))
  {
    match Find(Kinds(lines), alias) {
      case Some(r) => SpliceOneLine(lines, r, []);
      case None =>
    }
  }

  lemma {:induction false} SavedOneLine(lines: seq<string>, oldAlias: string, h: HostData)
    requires OneLineEach(lines) && Named(h) && OneLineValues(h)
    ensures OneLineEach(Saved(lines, oldAlias, h))
  {
    RenderOneLine(h);
    RemovedOneLine(lines, oldAlias);
    PlacedOneLine(if oldAlias != "" && oldAlias != h.name then Removed(lines, oldAlias) else lines, h.name, Render(h));
  }

  lemma {:induction false} LinesOneLine(file: Option<string>)
    ensures OneLineEach(Lines(file))
  {
    if file.Some? {
      JoinSplit(TrimSpace(file.value), '\n');
    }
  }

  /** The round trip through the file: a host that was saved and is read again has the saved tags,
      comment lines and forward rules. */
  lemma {:induction false} SavedFileScan(file: Option<string>, oldAlias: string, h: HostData, f: Field)
    requires Readable(h) && OneLineValues(h)
    ensures var again := Lines(Some(Written(Saved(Lines(file), oldAlias, h))));
      Block(again, h.name).Some? && Scan(f, Block(again, h.name).value) == Value(f, h)
  {
    LinesOneLine(file);
    SavedOneLine(Lines(file), oldAlias, h);
    Reread(Saved(Lines(file), oldAlias, h), h.name, f);
    SavedScan(Lines(file), oldAlias, h, f);
  }

  /** And every other host says what it said before. */
  lemma {:induction false} SavedFileFrame(file: Option<string>, oldAlias: string, h: HostData, b: string, f: Reading)
    requires Named(h) && OneLineValues(h) && b != h.name && b != oldAlias
    ensures var lines := Lines(file);
      var again := Lines(Some(Written(Saved(lines, oldAlias, h))));
      && Block(again, b).Some? == Block(lines, b).Some?
      && (Block(lines, b).Some? ==> Scan(f, Block(again, b).value) == Scan(f, Block(lines, b).value))
  {
    var lines := Lines(file);
    LinesOneLine(file);
    SavedOneLine(lines, oldAlias, h);
    Reread(Saved(lines, oldAlias, h), b, f);
    SavedFrame(lines, oldAlias, h, b);
    if Block(lines, b).Some? {
      var before := if oldAlias != "" && oldAlias != h.name then Removed(lines, oldAlias) else lines;
      var tail := Tail(before, h.name, b);
      ScanAppend(f, Block(lines, b).value, tail);
      BlankTail(tail, f);
    }
  }

  lemma {:induction false} BlankTail(tail: seq<string>, f: Reading)
    requires forall l <- tail :: l == ""
    ensures Scan(f, tail) == []
  {
    BlankLines(tail, f);
  }

  // ---- The code ----

  method SaveHost(file: Option<string>, oldAlias: string, h: HostData) returns (data: string)
    ensures data == Written(Saved(Lines(file), oldAlias, h.(port := if h.port == "" then "22" else h.port)))
  {
    var lines := ReadConfigLines(file);
    var host := h;
    if host.port == "" {
      host := host.(port := "22");
    }
    var block := RenderBlock(host);
    lines := UpdateLines(lines, oldAlias, host.name, block);
    data := WriteConfigLines(lines);
  }

  /** The file is only written when the host was found. */
  method DeleteHost(file: Option<string>, name: string) returns (written: Option<string>)
    ensures written == if Block(Lines(file), name).Some? then Some(Written(Removed(Lines(file), name))) else None
  {
    var lines := ReadConfigLines(file);
    var newLines, deleted := DeleteHostLines(lines, name);
    if !deleted {
      return None;
    }
    var data := WriteConfigLines(newLines);
    return Some(data);
  }
}
