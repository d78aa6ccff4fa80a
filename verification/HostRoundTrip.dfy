/** What a saved host block says when it is read again. */
module HostRoundTrip {
  import opened Basics
  import opened Text
  import opened HostBlocks
  import opened ConfigLines
  import opened HostText

  // ---- Lines one by one ----

  predicate IsForward(field: Reading) {
    field.Local? || field.Remote? || field.Dynamic?
  }

  /** A marker line is no host and no forward. */
  lemma {:induction false} MarkerFacts(x: string)
    requires Trimmed(x) && x != ""
    ensures TrimSpace("### " + x) == "### " + x && KindOf("### " + x) == Marker
    ensures ("### " + x)[4..] == x
    ensures forall f: Field :: IsForward(f) ==> Part(f, "### " + x) == []
  {
    var line := "### " + x;
    TrimTrimmed(line);
    NotBoth(line);
    assert ToLower(line)[0] == '#';
    assert line[..4] == "### ";
  }

  /** A comment line without words leaves a plain line. */
  lemma {:induction false} EmptyMarker()
    ensures KindOf("### ") == Plain
    ensures forall f: Field :: Part(f, "### ") == []
  {
    TrimIs("", "###", " ");
    assert "" + "###" + " " == "### ";
    assert ToLower("###")[0] == '#';
  }

  lemma {:induction false} BlankLine()
    ensures KindOf("") == Plain && TrimSpace("") == ""
    ensures forall f: Reading :: Part(f, "") == []
  {
  }

  /** A line `key value` below the Host line starts with its key, and a blank or nothing follows. */
  lemma {:induction false} KeyFirst(a: string, k: string, v: string) returns (t: string)
    requires Blank(a) && k != "" && SpaceFree(k)
    ensures t == TrimSpace(a + k + " " + v)
    ensures k <= t && (|t| > |k| ==> t[|k|] == ' ')
  {
    var rest := k + (" " + v);
    assert a + k + " " + v == a + rest;
    TrimLeftIs(a, rest);
    t := TrimRight(rest);
    var b := TrimRightParts(rest);
    assert rest == t + b;
    assert rest[|k| - 1] == k[|k| - 1] && k[|k| - 1] in k;
    forall i | |t| <= i < |rest| ensures IsSpace(rest[i]) {
      assert rest[i] == b[i - |t|];
    }
    assert t == rest[..|t|];
    assert forall i :: 0 <= i < |k| ==> t[i] == rest[i] == k[i];
    assert t[..|k|] == k;
  }

  lemma {:induction false} LowerSpace(c: char)
    requires LowerChar(c) == ' '
    ensures c == ' '
  {
  }

  /** Such a line has the prefix `word ` only for that word. */
  lemma {:induction false} PrefixKey(t: string, k: string, w: string)
    requires k <= t && (|t| > |k| ==> t[|k|] == ' ') && SpaceFree(k) && SpaceFree(w)
    requires HasPrefix(ToLower(t), w + " ")
    ensures ToLower(k) == w
  {
    var low := ToLower(t);
    assert low[|w|] == (w + " ")[|w|] == ' ';
    LowerSpace(t[|w|]);
    forall i | 0 <= i < |k| ensures !IsSpace(t[i]) {
      assert t[i] == k[i] && k[i] in k;
    }
    forall i | 0 <= i < |w| ensures low[i] != ' ' {
      assert low[i] == (w + " ")[i] == w[i] && w[i] in w;
    }
    assert |t| > |k| ==> low[|k|] == ' ';
    assert |w| == |k|;
    forall i | 0 <= i < |k| ensures ToLower(k)[i] == w[i] {
      assert w[i] == (w + " ")[i] == low[i];
    }
  }

  lemma {:induction false} WordsAreSpaceFree(field: Field)
    ensures SpaceFree(Word(field))
  {
  }

  /** Below the Host line: the line's key is no other forward's word. */
  lemma {:induction false} NotForward(t: string, k: string, field: Field)
    requires k <= t && (|t| > |k| ==> t[|k|] == ' ') && SpaceFree(k)
    requires ToLower(k) != Word(field)
    ensures Forward(Word(field), t) == []
  {
    WordsAreSpaceFree(field);
    if HasPrefix(ToLower(t), Word(field) + " ") {
      PrefixKey(t, k, Word(field));
      assert false;
    }
  }

  lemma {:induction false} NotHost(t: string, k: string)
    requires k <= t && (|t| > |k| ==> t[|k|] == ' ') && SpaceFree(k) && ToLower(k) != "host"
    ensures !HasPrefix(ToLower(t), "host ")
  {
    assert "host" + " " == "host ";
    if HasPrefix(ToLower(t), "host ") {
      PrefixKey(t, k, "host");
      assert false;
    }
  }

  /** Keys that are neither Host nor a forward. */
  ghost predicate Inert(k: string) {
    && k != "" && SpaceFree(k) && k[0] != '#'
    && ToLower(k) != "host" && forall f: Field :: ToLower(k) != Word(f)
  }

  ghost predicate Silent(line: string) {
    KindOf(line) == Plain && forall f: Field :: Part(f, line) == []
  }

  lemma {:induction false} InertLine(k: string, v: string)
    requires Inert(k)
    ensures Silent(OptionLine(k, v))
  {
    var t := KeyFirst("    ", k, v);
    assert t[0] == k[0];
    NotHost(t, k);
    forall f: Field ensures Part(f, OptionLine(k, v)) == [] {
      NotForward(t, k, f);
    }
  }

  lemma {:induction false} ForwardLine(field: Field, k: string, r: string, f: Field)
    requires IsForward(field) && k != "" && SpaceFree(k) && k[0] != '#' && ToLower(k) == Word(field)
    requires Word(field) != "host" && (f != field ==> Word(f) != Word(field))
    requires Trimmed(r) && r != ""
    ensures KindOf(OptionLine(k, r)) == Plain && Part(f, OptionLine(k, r)) == if f == field then [r] else []
  {
    var t := k + " " + r;
    assert k[0] in k && t[0] == k[0];
    assert "    " + t + "" == OptionLine(k, r);
    TrimIs("    ", t, "");
    NotHost(t, k);
    ForwardIs(k, r, t);
    if f != field {
      NotForward(t, k, f);
    }
  }

  lemma {:induction false} ForwardIs(k: string, r: string, t: string)
    requires t == k + " " + r && Trimmed(r) && r != ""
    ensures Forward(ToLower(k), t) == [r]
  {
    var low := ToLower(t);
    assert low[..|k| + 1] == ToLower(k) + " ";
    assert t[|k| + 1..] == r;
    TrimTrimmed(r);
  }

  lemma {:induction false} HostLine(name: string)
    requires name != "" && SpaceFree(name)
    ensures KindOf("Host " + name) == Host(name)
    ensures forall f: Field :: Part(f, "Host " + name) == []
  {
    var line := "Host " + name;
    HostWords(name, line);
    assert line[0] == 'H' && "Host" <= line && line[4] == ' ';
    assert ToLower(line)[..5] == "host ";
    LowerHost();
    forall f: Field ensures Part(f, line) == [] {
      NotForward(line, "Host", f);
    }
  }

  lemma {:induction false} LowerHost()
    ensures ToLower("Host") == "host" && forall f: Field :: Word(f) != "host"
  {
    assert |Word(Local)| == 12 && |Word(Remote)| == 13 && |Word(Dynamic)| == 14;
  }

  lemma {:induction false} HostWords(name: string, line: string)
    requires name != "" && SpaceFree(name) && line == "Host " + name
    ensures TrimSpace(line) == line && Fields(line) == ["Host", name]
  {
    OneWord(name);
    assert "Host" + [' '] + name == line;
    WordBefore("Host", name, line);
    TrimTrimmed(line);
  }

  // ---- The parts of a block ----

  /** A comment line that scanning gives back as one. */
  predicate IsRemark(x: string) {
    x != "" && !IsTagLine(x)
  }

  lemma {:induction false} TrimAllTrimmed(lines: seq<string>)
    ensures forall x <- TrimAll(lines) :: Trimmed(x)
    decreases |lines|
  {
    if lines != [] {
      TrimTwice(lines[0]);
      TrimAllTrimmed(lines[1..]);
    }
  }

  /** Saved comment lines are markers, or plain where they have no text. */
  lemma {:induction false} CommentKinds(parts: seq<string>)
    requires forall x <- parts :: Trimmed(x)
    ensures forall i :: 0 <= i < |parts| ==>
      Kinds(Prefixed("### ", parts))[i] == if parts[i] == "" then Plain else Marker
    decreases |parts|
  {
    if parts != [] {
      assert parts[0] in parts;
      CommentKinds(parts[1..]);
      EmptyMarker();
      if parts[0] != "" {
        MarkerFacts(parts[0]);
      } else {
        assert "### " + "" == "### ";
      }
    }
  }

  lemma {:induction false} ScanComments(parts: seq<string>, f: Field)
    requires forall x <- parts :: Trimmed(x) && IsRemark(x)
    ensures Scan(f, Prefixed("### ", parts)) == if f == Comments then parts else []
    decreases |parts|
  {
    if parts != [] {
      assert parts[0] in parts;
      RemarkPart(parts[0], "### " + parts[0], f);
      assert forall x <- parts[1..] :: x in parts;
      ScanComments(parts[1..], f);
    }
  }

  lemma {:induction false} RemarkPart(x: string, line: string, f: Field)
    requires Trimmed(x) && IsRemark(x) && line == "### " + x
    ensures Part(f, line) == if f == Comments then [x] else []
  {
    MarkerFacts(x);
  }

  lemma {:induction false} WordBefore(w: string, rest: string, all: string)
    requires w != "" && SpaceFree(w) && Trimmed(rest) && rest != "" && all == w + [' '] + rest
    ensures Fields(all) == [w] + Fields(rest) && Trimmed(all)
  {
    assert all == w + (" " + rest);
    FieldsFirst(w, " " + rest);
    FieldsSkip(" ", rest);
    assert w[0] in w;
  }

  lemma {:induction false} OneWord(w: string)
    requires w != "" && SpaceFree(w)
    ensures Fields(w) == [w] && Trimmed(w)
  {
    FieldsFirst(w, "");
    assert w + "" == w;
    assert w[0] in w && w[|w| - 1] in w;
  }

  predicate AllWords(words: seq<string>) {
    words != [] ==> words[0] != "" && SpaceFree(words[0]) && AllWords(words[1..])
  }

  lemma {:induction false} JoinedWords(words: seq<string>)
    requires words != [] && AllWords(words)
    ensures var t := Join(words, ' '); Trimmed(t) && t != "" && Fields(t) == words
    decreases |words|
  {
    var w, more := words[0], words[1..];
    assert words == [w] + more;
    if more == [] {
      OneWord(w);
    } else {
      JoinedWords(more);
      WordBefore(w, Join(more, ' '), Join(words, ' '));
    }
  }

  lemma {:induction false} Hashed(tags: seq<string>)
    requires forall t <- tags :: SpaceFree(t)
    ensures AllWords(Prefixed("#", tags)) && forall w <- Prefixed("#", tags) :: HasPrefix(w, "#")
    ensures Unhashed(Prefixed("#", tags)) == tags
    decreases |tags|
  {
    if tags != [] {
      Hashed(tags[1..]);
      assert tags[0] in tags;
      assert ("#" + tags[0])[1..] == tags[0];
    }
  }

  lemma {:induction false} TagFacts(tags: seq<string>)
    requires forall t <- tags :: SpaceFree(t)
    ensures forall i :: 0 <= i < |TagLines(tags)| ==> Kinds(TagLines(tags))[i] == Marker
    ensures Scan(Tags, TagLines(tags)) == tags
    ensures forall f: Field :: f != Tags ==> Scan(f, TagLines(tags)) == []
  {
    if tags != [] {
      var words := Prefixed("#", tags);
      var t := Join(words, ' ');
      Hashed(tags);
      JoinedWords(words);
      MarkerFacts(t);
      assert IsTagLine(t);
      OneLine("### " + t);
    }
  }

  lemma {:induction false} OneLine(line: string)
    ensures Kinds([line]) == [KindOf(line)]
    ensures forall f: Reading :: Scan(f, [line]) == Part(f, line)
  {
    assert [line][1..] == [];
    forall f: Reading ensures Scan(f, [line]) == Part(f, line) {
      assert Part(f, line) + [] == Part(f, line);
    }
  }

  ghost predicate AllSilent(lines: seq<string>) {
    forall l <- lines :: Silent(l)
  }

  predicate AllPlain(lines: seq<string>) {
    forall i :: 0 <= i < |lines| ==> Kinds(lines)[i] == Plain
  }

  lemma {:induction false} SilentScan(lines: seq<string>)
    requires AllSilent(lines)
    ensures AllPlain(lines) && forall f: Field :: Scan(f, lines) == []
    decreases |lines|
  {
    if lines != [] {
      assert lines[0] in lines;
      SilentScan(lines[1..]);
    }
  }

  lemma {:induction false} OptionsSilent(settings: seq<(string, string)>)
    requires forall p <- settings :: Inert(p.0)
    ensures AllSilent(OptionLines(settings))
    decreases |settings|
  {
    if settings != [] {
      assert settings[0] in settings;
      InertLine(settings[0].0, settings[0].1);
      OptionsSilent(settings[1..]);
    }
  }

  /** A key is inert if its lower-case form differs from four words in length or in some letter. */
  lemma {:induction false} InertKey(k: string)
    requires k != "" && SpaceFree(k) && k[0] != '#'
    requires |k| != 4 || LowerChar(k[0]) != 'h'
    requires |k| != 12 || LowerChar(k[0]) != 'l'
    requires |k| != 13 || LowerChar(k[6]) != 'f'
    requires |k| != 14
    ensures Inert(k)
  {
    var low := ToLower(k);
    assert |low| == |k|;
    if |k| == 12 {
      assert low[0] != Word(Local)[0];
    } else if |k| == 13 {
      assert low[6] != Word(Remote)[6];
    } else if |k| == 4 {
      assert low[0] != "host"[0];
    }
  }

  lemma {:induction false} ShortKeys()
    ensures Inert("User") && Inert("Port") && Inert("ProxyJump") && Inert("IdentityFile")
  {
    InertKey("User");
    InertKey("Port");
    InertKey("ProxyJump");
    InertKey("IdentityFile");
  }

  lemma {:induction false} MediumKeys()
    ensures Inert("RemoteCommand") && Inert("AddressFamily")
  {
    InertKey("RemoteCommand");
    InertKey("AddressFamily");
  }

  lemma {:induction false} KnownHostsKey()
    ensures Inert("UserKnownHostsFile")
  {
    InertKey("UserKnownHostsFile");
  }

  lemma {:induction false} StrictKey()
    ensures Inert("StrictHostKeyChecking")
  {
    InertKey("StrictHostKeyChecking");
  }

  lemma {:induction false} AlgorithmsKey()
    ensures Inert("HostKeyAlgorithms")
  {
    InertKey("HostKeyAlgorithms");
  }

  lemma {:induction false} OtherKeys()
    ensures Inert("VerifyHostKeyDNS") && Inert("SendEnv")
  {
    InertKey("VerifyHostKeyDNS");
    InertKey("SendEnv");
  }

  lemma {:induction false} EachConnection(h: HostData, good: string -> bool)
    requires good("User") && good("Port") && good("IdentityFile") && good("ProxyJump")
    requires good("RemoteCommand") && good("AddressFamily")
    ensures forall p <- Connection(h) :: good(p.0)
  {
  }

  lemma {:induction false} EachChecking(h: HostData, good: string -> bool)
    requires good("UserKnownHostsFile") && good("StrictHostKeyChecking") && good("HostKeyAlgorithms")
    requires good("VerifyHostKeyDNS") && good("SendEnv")
    ensures forall p <- Checking(h) :: good(p.0)
  {
  }

  lemma {:induction false} ConnectionInert(h: HostData)
    ensures forall p <- Connection(h) :: Inert(p.0)
  {
    ShortKeys();
    MediumKeys();
    var good := k => Inert(k);
    EachConnection(h, good);
    forall p | p in Connection(h) ensures Inert(p.0) {
      assert good(p.0);
    }
  }

  lemma {:induction false} CheckingInert(h: HostData)
    ensures forall p <- Checking(h) :: Inert(p.0)
  {
    KnownHostsKey();
    StrictKey();
    AlgorithmsKey();
    OtherKeys();
    var good := k => Inert(k);
    EachChecking(h, good);
    forall p | p in Checking(h) ensures Inert(p.0) {
      assert good(p.0);
    }
  }

  lemma {:induction false} OptionFacts(h: HostData)
    ensures AllSilent(Options(h))
  {
    InertKey("HostName");
    InertLine("HostName", h.hostName);
    ConnectionInert(h);
    CheckingInert(h);
    OptionsSilent(Connection(h));
    OptionsSilent(Checking(h));
  }

  lemma {:induction false} RulesAre(lines: seq<string>)
    ensures forall r <- RulesOf(lines) :: Trimmed(r) && r != "" && !HasPrefix(r, "#")
    decreases |lines|
  {
    if lines != [] {
      TrimTwice(lines[0]);
      RulesAre(lines[1..]);
    }
  }

  lemma {:induction false} ScanRules(field: Field, k: string, rules: seq<string>, f: Field)
    requires IsForward(field) && k != "" && SpaceFree(k) && k[0] != '#' && ToLower(k) == Word(field)
    requires Word(field) != "host" && (f != field ==> Word(f) != Word(field))
    requires forall r <- rules :: Trimmed(r) && r != ""
    ensures var lines := Prefixed("    " + k + " ", rules);
      AllPlain(lines) && Scan(f, lines) == if f == field then rules else []
    decreases |rules|
  {
    if rules != [] {
      assert rules[0] in rules;
      ForwardLine(field, k, rules[0], f);
      ScanRules(field, k, rules[1..], f);
    }
  }
}
