/** Saving a host: its block afterwards, everybody else's block, and what scanning finds. */
module HostSave {
  import opened Basics
  import opened Text
  import opened HostBlocks
  import opened ConfigLines
  import opened HostSplice
  import opened HostText
  import opened HostRoundTrip

  predicate NameOk(name: string) {
    name != "" && SpaceFree(name)
  }

  lemma {:induction false} PlainAppend(a: seq<string>, b: seq<string>)
    requires AllPlain(a) && AllPlain(b)
    ensures AllPlain(a + b)
  {
    KindsAppend(a, b);
  }

  lemma {:induction false} LowerLocal()
    ensures ToLower("LocalForward") == Word(Local) && SpaceFree("LocalForward")
  {
  }

  lemma {:induction false} LowerRemote()
    ensures ToLower("RemoteForward") == Word(Remote) && SpaceFree("RemoteForward")
  {
  }

  lemma {:induction false} LowerDynamic()
    ensures ToLower("DynamicForward") == Word(Dynamic) && SpaceFree("DynamicForward")
  {
  }

  lemma {:induction false} LowerWords()
    ensures ToLower("LocalForward") == Word(Local) && ToLower("RemoteForward") == Word(Remote)
    ensures ToLower("DynamicForward") == Word(Dynamic)
    ensures SpaceFree("LocalForward") && SpaceFree("RemoteForward") && SpaceFree("DynamicForward")
  {
    LowerLocal();
    LowerRemote();
    LowerDynamic();
  }

  lemma {:induction false} WordLengths(f: Field, field: Field)
    requires IsForward(field)
    ensures f != field ==> Word(f) != Word(field)
  {
    assert |Word(Local)| == 12 && |Word(Remote)| == 13 && |Word(Dynamic)| == 14;
  }

  lemma {:induction false} LocalFacts(h: HostData, f: Field)
    ensures var lines := Prefixed(LOCAL, Rules(h.localForward));
      AllPlain(lines) && Scan(f, lines) == if f == Local then Rules(h.localForward) else []
  {
    LowerLocal();
    LowerHost();
    RulesAre(Split(h.localForward, '\n'));
    WordLengths(f, Local);
    ScanRules(Local, "LocalForward", Rules(h.localForward), f);
  }

  lemma {:induction false} RemoteFacts(h: HostData, f: Field)
    ensures var lines := Prefixed(REMOTE, Rules(h.remoteForward));
      AllPlain(lines) && Scan(f, lines) == if f == Remote then Rules(h.remoteForward) else []
  {
    LowerRemote();
    LowerHost();
    RulesAre(Split(h.remoteForward, '\n'));
    WordLengths(f, Remote);
    ScanRules(Remote, "RemoteForward", Rules(h.remoteForward), f);
  }

  lemma {:induction false} DynamicFacts(h: HostData, f: Field)
    ensures var lines := Prefixed(DYNAMIC, Rules(h.dynamicForward));
      AllPlain(lines) && Scan(f, lines) == if f == Dynamic then Rules(h.dynamicForward) else []
  {
    LowerDynamic();
    LowerHost();
    RulesAre(Split(h.dynamicForward, '\n'));
    WordLengths(f, Dynamic);
    ScanRules(Dynamic, "DynamicForward", Rules(h.dynamicForward), f);
  }

  /** The value that a field of a host has after saving: tags as they are, the comment's trimmed lines,
      the forward rules without blank lines and comments. */
  function Value(f: Field, h: HostData): seq<string> {
    match f
    case Tags => h.tags
    case Comments => CommentParts(h.comment)
    case Local => Rules(h.localForward)
    case Remote => Rules(h.remoteForward)
    case Dynamic => Rules(h.dynamicForward)
  }

  lemma {:induction false} ThreeParts(a: seq<string>, b: seq<string>, c: seq<string>, f: Reading)
    ensures Scan(f, a + b + c) == Scan(f, a) + Scan(f, b) + Scan(f, c)
    ensures AllPlain(a) && AllPlain(b) && AllPlain(c) ==> AllPlain(a + b + c)
  {
    ScanAppend(f, a, b);
    ScanAppend(f, a + b, c);
    if AllPlain(a) && AllPlain(b) && AllPlain(c) {
      PlainAppend(a, b);
      PlainAppend(a + b, c);
    }
  }

  lemma {:induction false} ForwardsFacts(h: HostData, f: Field)
    ensures AllPlain(Forwards(h)) && Scan(f, Forwards(h)) == if IsForward(f) then Value(f, h) else []
  {
    LocalFacts(h, f);
    RemoteFacts(h, f);
    DynamicFacts(h, f);
    var a, b, c := Prefixed(LOCAL, Rules(h.localForward)), Prefixed(REMOTE, Rules(h.remoteForward)),
                   Prefixed(DYNAMIC, Rules(h.dynamicForward));
    ThreeParts(a, b, c, f);
    Alone(Scan(f, a), Scan(f, b), Scan(f, c));
  }

  lemma {:induction false} Alone(a: seq<string>, b: seq<string>, c: seq<string>)
    ensures b == [] && c == [] ==> a + b + c == a
    ensures a == [] && c == [] ==> a + b + c == b
    ensures a == [] && b == [] ==> a + b + c == c
  {
  }

  lemma {:induction false} RestFacts(h: HostData, f: Field)
    ensures AllPlain(Rest(h)) && |Rest(h)| > 0 && Rest(h)[|Rest(h)| - 1] == ""
    ensures Scan(f, Rest(h)) == if IsForward(f) then Value(f, h) else []
  {
    OptionFacts(h);
    SilentScan(Options(h));
    ForwardsFacts(h, f);
    BlankLine();
    OneLine("");
    ThreeParts(Options(h), Forwards(h), [""], f);
    Alone(Scan(f, Options(h)), Scan(f, Forwards(h)), Scan(f, [""]));
  }

  // ---- The lines above the Host line ----

  lemma {:induction false} FirstPart(s: string)
    requires s != "" && !IsSpace(s[0])
    ensures TrimSpace(Split(s, '\n')[0]) != ""
  {
    var p := Split(s, '\n')[0];
    assert s[0] != '\n';
    assert p[0] == s[0] && p[0] in p;
    BlankIff(p);
  }

  lemma {:induction false} CommentStarts(comment: string)
    requires CommentParts(comment) != []
    ensures CommentParts(comment)[0] != "" && forall x <- CommentParts(comment) :: Trimmed(x)
  {
    TrimTwice(comment);
    FirstPart(TrimSpace(comment));
    TrimAllTrimmed(Split(TrimSpace(comment), '\n'));
  }

  /** Above the Host line: markers, and a plain line for every comment line without text. */
  lemma {:induction false} HeadFacts(h: HostData)
    requires forall t <- h.tags :: SpaceFree(t)
    ensures var ks, parts := Kinds(Head(h)), CommentParts(h.comment);
      && |parts| <= |ks|
      && (forall i :: 0 <= i < |parts| ==> ks[i] == if parts[i] == "" then Plain else Marker)
      && (forall i :: |parts| <= i < |ks| ==> ks[i] == Marker)
      && (ks != [] ==> ks[0] == Marker)
  {
    var parts := CommentParts(h.comment);
    KindsAppend(Prefixed("### ", parts), TagLines(h.tags));
    TagFacts(h.tags);
    if parts != [] {
      CommentStarts(h.comment);
    }
    CommentKinds(parts);
  }

  /** What saving needs of a host: a name and tags without white space. */
  predicate Named(h: HostData) {
    NameOk(h.name) && forall t <- h.tags :: SpaceFree(t)
  }

  /** And what scanning needs besides: comment lines that have text, and not only `#words`. */
  predicate Readable(h: HostData) {
    Named(h) && forall x <- CommentParts(h.comment) :: IsRemark(x)
  }

  lemma {:induction false} HeadScan(h: HostData, f: Field)
    requires Readable(h)
    ensures Scan(f, Head(h)) == if IsForward(f) then [] else Value(f, h)
  {
    var parts := CommentParts(h.comment);
    if parts != [] {
      CommentStarts(h.comment);
    }
    ScanComments(parts, f);
    TagFacts(h.tags);
    ScanAppend(f, Prefixed("### ", parts), TagLines(h.tags));
  }

  /** Scanning the rendered lines gives every field back. */
  lemma {:induction false} ScanRendered(h: HostData, f: Field)
    requires Readable(h)
    ensures Scan(f, Render(h)) == Value(f, h)
  {
    HeadScan(h, f);
    HostScan(h.name, f, "Host " + h.name);
    RestFacts(h, f);
    ThreeParts(Head(h), ["Host " + h.name], Rest(h), f);
    Alone(Scan(f, Head(h)), Scan(f, ["Host " + h.name]), Scan(f, Rest(h)));
  }

  lemma {:induction false} HostScan(name: string, f: Field, line: string)
    requires NameOk(name) && line == "Host " + name
    ensures Scan(f, [line]) == []
  {
    HostLine(name);
    OneLine(line);
  }

  // ---- The block afterwards ----

  /** Where the own block of the rendered lines starts: after the last comment line without text. */
  function OwnStart(parts: seq<string>): (k: nat)
    ensures k <= |parts| && (k > 0 ==> parts[k - 1] == "") && forall i :: k <= i < |parts| ==> parts[i] != ""
  {
    if parts == [] then 0
    else if parts[|parts| - 1] == "" then |parts|
    else OwnStart(parts[..|parts| - 1])
  }

  lemma {:induction false} RenderKinds(h: HostData)
    requires Named(h)
    ensures Kinds(Render(h)) == Kinds(Head(h)) + [Host(h.name)] + Kinds(Rest(h))
    ensures AllPlain(Rest(h)) && |Rest(h)| > 0
  {
    HostLine(h.name);
    OneLine("Host " + h.name);
    RestFacts(h, Tags);
    KindsAppend(Head(h) + ["Host " + h.name], Rest(h));
    KindsAppend(Head(h), ["Host " + h.name]);
  }

  lemma {:induction false} OwnBlock(ks: seq<LineKind>, head: seq<LineKind>, name: string, rest: seq<LineKind>, k: nat)
    requires ks == head + [Host(name)] + rest && |rest| > 0 && k <= |head|
    requires forall i :: 0 <= i < |rest| ==> rest[i] == Plain
    requires forall i :: 0 <= i < |head| ==> !head[i].Host?
    requires forall i :: k <= i < |head| ==> head[i] == Marker
    requires head != [] ==> head[0] == Marker
    requires k > 0 ==> head[k - 1] != Marker
    ensures Fits(ks, name) && IsBlock(ks, name, Range(k, |head|, |ks|))
  {
    assert forall i :: 0 <= i < |head| ==> ks[i] == head[i];
    assert forall i :: |head| < i < |ks| ==> ks[i] == rest[i - |head| - 1];
  }

  lemma {:induction false} RenderedBlock(h: HostData)
    requires Named(h)
    ensures Fits(Kinds(Render(h)), h.name) && Render(h) != []
    ensures IsBlock(Kinds(Render(h)), h.name, Range(OwnStart(CommentParts(h.comment)), |Head(h)|, |Render(h)|))
  {
    RenderKinds(h);
    var ks, head, rest := Kinds(Render(h)), Kinds(Head(h)), Kinds(Rest(h));
    var k := OwnHead(h, head);
    OwnBlock(ks, head, h.name, rest, k);
  }

  lemma {:induction false} OwnHead(h: HostData, head: seq<LineKind>) returns (k: nat)
    requires Named(h) && head == Kinds(Head(h))
    ensures k == OwnStart(CommentParts(h.comment)) && k <= |head|
    ensures forall i :: 0 <= i < |head| ==> !head[i].Host?
    ensures forall i :: k <= i < |head| ==> head[i] == Marker
    ensures (head != [] ==> head[0] == Marker) && (k > 0 ==> head[k - 1] != Marker)
  {
    HeadFacts(h);
    k := OwnStart(CommentParts(h.comment));
  }

  /** The lines of the file after a host was saved. */
  function Saved(lines: seq<string>, oldAlias: string, h: HostData): seq<string> {
    Updated(lines, oldAlias, h.name, Render(h))
  }

  /** The saved host's block is what was rendered, from the last comment line without text on. */
  lemma {:induction false} SavedBlock(lines: seq<string>, oldAlias: string, h: HostData)
    requires Named(h)
    ensures Block(Saved(lines, oldAlias, h), h.name) == Some(Render(h)[OwnStart(CommentParts(h.comment))..])
  {
    RenderedBlock(h);
    var before := if oldAlias != "" && oldAlias != h.name then Removed(lines, oldAlias) else lines;
    PlaceOwn(before, h.name, Render(h), Range(OwnStart(CommentParts(h.comment)), |Head(h)|, |Render(h)|),
             Saved(lines, oldAlias, h));
  }

  /** So it is exactly what was rendered if and only if every comment line has text. */
  lemma {:induction false} SavedExactly(lines: seq<string>, oldAlias: string, h: HostData)
    requires Named(h)
    ensures Block(Saved(lines, oldAlias, h), h.name) == Some(Render(h)) <==>
            forall x <- CommentParts(h.comment) :: x != ""
  {
    SavedBlock(lines, oldAlias, h);
    var parts := CommentParts(h.comment);
    var k := OwnStart(parts);
    assert |Render(h)[k..]| == |Render(h)| - k;
    if k > 0 {
      assert parts[k - 1] in parts;
    }
  }

  /** Every other host's block is verbatim as it was, save for one blank line after the block at the
      end of the file when the saved host is appended. */
  lemma {:induction false} SavedFrame(lines: seq<string>, oldAlias: string, h: HostData, b: string)
    requires Named(h) && b != h.name && b != oldAlias
    ensures var before := if oldAlias != "" && oldAlias != h.name then Removed(lines, oldAlias) else lines;
      var tail := Tail(before, h.name, b);
      && |tail| <= 1 && (forall l <- tail :: l == "")
      && Block(Saved(lines, oldAlias, h), b) ==
         match Block(lines, b) case None => None case Some(was) => Some(was + tail)
  {
    RenderedBlock(h);
    var before := if oldAlias != "" && oldAlias != h.name then Removed(lines, oldAlias) else lines;
    if oldAlias != "" && oldAlias != h.name {
      DeleteFrame(lines, oldAlias, b);
    }
    PlaceFrame(before, h.name, Render(h), b);
  }

  /** The round trip: after saving, scanning the host's block gives every field back. */
  lemma {:induction false} SavedScan(lines: seq<string>, oldAlias: string, h: HostData, f: Field)
    requires Readable(h)
    ensures Block(Saved(lines, oldAlias, h), h.name).Some?
    ensures Scan(f, Block(Saved(lines, oldAlias, h), h.name).value) == Value(f, h)
  {
    SavedExactly(lines, oldAlias, h);
    ScanRendered(h, f);
  }
}
