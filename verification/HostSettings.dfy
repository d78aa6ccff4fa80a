/** The single-valued settings of a saved host, as a reader of ssh_config finds them: by keyword, in any
    letter case. */
module HostSettings {
  import opened Basics
  import opened Text
  import opened HostBlocks
  import opened ConfigLines
  import opened HostText
  import opened HostRoundTrip
  import opened HostSave
  import opened HostFile

  /** The arguments of all lines with that keyword, given in lower case. */
  function Values(word: string, lines: seq<string>): seq<string> {
    Scan(Keyword(word), lines)
  }

  function Shown(v: string): seq<string> {
    if v == "" then [] else [v]
  }

  lemma {:induction false} ValuesAppend(word: string, a: seq<string>, b: seq<string>)
    ensures Values(word, a + b) == Values(word, a) + Values(word, b)
  {
    ScanAppend(Keyword(word), a, b);
  }

  /** Enough of a keyword to tell the ones of this program apart. */
  function KeyTag(k: string): (int, char, char)
    requires k != ""
  {
    (|k|, LowerChar(k[0]), LowerChar(k[|k| / 2]))
  }

  predicate IsKey(k: string) {
    k != "" && SpaceFree(k) && k[0] != '#'
  }

  lemma {:induction false} LowerTwice(c: char)
    ensures LowerChar(LowerChar(c)) == LowerChar(c)
    ensures LowerChar(c) == '#' ==> c == '#'
    ensures IsSpace(LowerChar(c)) ==> IsSpace(c)
  {
  }

  lemma {:induction false} LowerKey(k: string)
    requires IsKey(k)
    ensures IsKey(ToLower(k)) && KeyTag(ToLower(k)) == KeyTag(k)
  {
    LowerTwice(k[0]);
    LowerTwice(k[|k| / 2]);
    forall c | c in ToLower(k) ensures !IsSpace(c) {
      var i :| 0 <= i < |k| && ToLower(k)[i] == c;
      assert k[i] in k;
      LowerTwice(k[i]);
    }
  }

  /** A line with another keyword says nothing. */
  lemma {:induction false} OtherKeyword(word: string, k: string, v: string)
    requires IsKey(word) && ToLower(word) == word && IsKey(k) && KeyTag(k) != KeyTag(word)
    ensures Forward(word, TrimSpace(OptionLine(k, v))) == []
  {
    var t := KeyFirst("    ", k, v);
    OtherFirst(t, k, word);
  }

  lemma {:induction false} ThisKeyword(k: string, v: string)
    requires IsKey(k) && Trimmed(v)
    ensures Forward(ToLower(k), TrimSpace(OptionLine(k, v))) == Shown(v)
  {
    assert k[0] in k && k[|k| - 1] in k;
    if v == "" {
      TrimIs("    ", k, " ");
      assert "    " + k + " " == OptionLine(k, v);
    } else {
      var t := k + " " + v;
      TrimIs("    ", t, "");
      assert "    " + t + "" == OptionLine(k, v);
      ForwardIs(k, v, t);
    }
  }

  predicate Keys(settings: seq<(string, string)>) {
    forall p <- settings :: IsKey(p.0)
  }

  lemma {:induction false} FirstOption(word: string, settings: seq<(string, string)>)
    requires settings != []
    ensures var (k, v) := settings[0];
      Values(word, OptionLines(settings)) ==
      (if v == "" then [] else Forward(word, TrimSpace(OptionLine(k, v)))) + Values(word, OptionLines(settings[1..]))
  {
    var (k, v) := settings[0];
    var line := OptionLine(k, v);
    var rest := OptionLines(settings[1..]);
    if v != "" {
      ValuesAppend(word, [line], rest);
      assert [line][1..] == [];
      assert Forward(word, TrimSpace(line)) + [] == Forward(word, TrimSpace(line));
    } else {
      assert [] + rest == rest;
    }
  }

  lemma {:induction false} NotAmong(word: string, settings: seq<(string, string)>)
    requires IsKey(word) && ToLower(word) == word && Keys(settings)
    requires forall p <- settings :: KeyTag(p.0) != KeyTag(word)
    ensures Values(word, OptionLines(settings)) == []
    decreases |settings|
  {
    if settings != [] {
      assert settings[0] in settings;
      OtherKeyword(word, settings[0].0, settings[0].1);
      FirstOption(word, settings);
      NotAmong(word, settings[1..]);
    }
  }

  lemma {:induction false} OptionsAppend(a: seq<(string, string)>, b: seq<(string, string)>)
    ensures OptionLines(a + b) == OptionLines(a) + OptionLines(b)
    decreases |a|
  {
    if a == [] {
      assert a + b == b;
    } else {
      assert (a + b)[1..] == a[1..] + b;
      OptionsAppend(a[1..], b);
    }
  }

  lemma {:induction false} LowerAgain(k: string)
    ensures ToLower(ToLower(k)) == ToLower(k)
  {
    forall i | 0 <= i < |k| ensures ToLower(ToLower(k))[i] == ToLower(k)[i] {
      LowerTwice(k[i]);
    }
  }

  /** One setting among others with other keywords. */
  lemma {:induction false} Among(a: seq<(string, string)>, k: string, v: string, b: seq<(string, string)>)
    requires Keys(a) && Keys(b) && IsKey(k) && Trimmed(v)
    requires forall p <- a :: KeyTag(p.0) != KeyTag(k)
    requires forall p <- b :: KeyTag(p.0) != KeyTag(k)
    ensures Values(ToLower(k), OptionLines(a + [(k, v)] + b)) == Shown(v)
  {
    var word := ToLower(k);
    LowerKey(k);
    LowerAgain(k);
    NotAmong(word, a);
    NotAmong(word, b);
    ThisKeyword(k, v);
    FirstOption(word, [(k, v)]);
    assert [(k, v)][1..] == [];
    OptionsAppend(a + [(k, v)], b);
    OptionsAppend(a, [(k, v)]);
    ValuesAppend(word, OptionLines(a + [(k, v)]), OptionLines(b));
    ValuesAppend(word, OptionLines(a), OptionLines([(k, v)]));
  }

  // ---- The other lines of a block ----

  /** The tags of Host, LocalForward, RemoteForward and DynamicForward. */
  const HOST_TAG := (4, 'h', 's')
  const LOCAL_TAG := (12, 'l', 'o')
  const REMOTE_TAG := (13, 'r', 'f')
  const DYNAMIC_TAG := (14, 'd', 'f')

  /** A keyword in lower case that is none of those. */
  predicate IsSetting(word: string) {
    IsKey(word) && ToLower(word) == word && KeyTag(word) !in {HOST_TAG, LOCAL_TAG, REMOTE_TAG, DYNAMIC_TAG}
  }

  lemma {:induction false} MarkerSays(word: string, x: string)
    requires IsKey(word) && Trimmed(x)
    ensures Forward(word, TrimSpace("### " + x)) == []
  {
    var t := TrimSpace("### " + x);
    if x != "" {
      TrimTrimmed("### " + x);
    } else {
      TrimIs("", "###", " ");
      assert "" + "###" + " " == "### " + x;
    }
    assert ToLower(t)[0] == '#' && (word + " ")[0] == word[0];
  }

  lemma {:induction false} MarkersSay(word: string, parts: seq<string>)
    requires IsKey(word) && forall x <- parts :: Trimmed(x)
    ensures Values(word, Prefixed("### ", parts)) == []
    decreases |parts|
  {
    if parts != [] {
      assert parts[0] in parts;
      MarkerSays(word, parts[0]);
      MarkersSay(word, parts[1..]);
    }
  }

  lemma {:induction false} ForwardsSay(word: string, k: string, rules: seq<string>)
    requires IsKey(word) && ToLower(word) == word && IsKey(k) && KeyTag(k) != KeyTag(word)
    ensures Values(word, Prefixed("    " + k + " ", rules)) == []
    decreases |rules|
  {
    if rules != [] {
      OtherKeyword(word, k, rules[0]);
      ForwardsSay(word, k, rules[1..]);
    }
  }

  lemma {:induction false} HeadSays(h: HostData, word: string)
    requires Named(h) && IsKey(word)
    ensures Values(word, Head(h)) == []
  {
    var parts := CommentParts(h.comment);
    if parts != [] {
      CommentStarts(h.comment);
    }
    MarkersSay(word, parts);
    if h.tags != [] {
      var words := Prefixed("#", h.tags);
      Hashed(h.tags);
      JoinedWords(words);
      MarkersSay(word, [Join(words, ' ')]);
      assert Prefixed("### ", [Join(words, ' ')]) == TagLines(h.tags);
    }
    ValuesAppend(word, Prefixed("### ", parts), TagLines(h.tags));
  }

  lemma {:induction false} OneSays(word: string, line: string)
    ensures Values(word, [line]) == Forward(word, TrimSpace(line))
  {
    OneLine(line);
    assert Values(word, [line]) == Part(Keyword(word), line);
  }

  lemma {:induction false} HostTag(k: string)
    requires k == "Host"
    ensures IsKey(k) && KeyTag(k) == HOST_TAG
  {
  }

  lemma {:induction false} OtherFirst(t: string, k: string, word: string)
    requires k <= t && (|t| > |k| ==> t[|k|] == ' ') && IsKey(k) && IsKey(word) && KeyTag(k) != KeyTag(word)
    ensures Forward(word, t) == []
  {
    if HasPrefix(ToLower(t), word + " ") {
      PrefixKey(t, k, word);
      LowerKey(k);
      assert false;
    }
  }

  lemma {:induction false} HostLineSays(name: string, word: string, line: string)
    requires NameOk(name) && IsSetting(word) && line == "Host " + name
    ensures Values(word, [line]) == []
  {
    HostWords(name, line);
    HostTag("Host");
    assert "Host" <= line && line[4] == ' ';
    OtherFirst(line, "Host", word);
    OneSays(word, line);
  }

  lemma {:induction false} ForwardTags()
    ensures IsKey("LocalForward") && KeyTag("LocalForward") == LOCAL_TAG
    ensures IsKey("RemoteForward") && KeyTag("RemoteForward") == REMOTE_TAG
    ensures IsKey("DynamicForward") && KeyTag("DynamicForward") == DYNAMIC_TAG
  {
    LowerWords();
  }

  lemma {:induction false} ThreeSay(word: string, a: seq<string>, b: seq<string>, c: seq<string>)
    ensures Values(word, a + b + c) == Values(word, a) + Values(word, b) + Values(word, c)
  {
    ValuesAppend(word, a + b, c);
    ValuesAppend(word, a, b);
  }

  lemma {:induction false} RulesSay(h: HostData, word: string)
    requires IsSetting(word)
    ensures Values(word, Forwards(h)) == []
  {
    ForwardTags();
    ForwardsSay(word, "LocalForward", Rules(h.localForward));
    ForwardsSay(word, "RemoteForward", Rules(h.remoteForward));
    ForwardsSay(word, "DynamicForward", Rules(h.dynamicForward));
    ThreeSay(word, Prefixed(LOCAL, Rules(h.localForward)), Prefixed(REMOTE, Rules(h.remoteForward)),
             Prefixed(DYNAMIC, Rules(h.dynamicForward)));
  }

  lemma {:induction false} BlankSays(word: string)
    requires word != ""
    ensures Values(word, [""]) == []
  {
    BlankLine();
    OneSays(word, "");
  }

  /** Only the settings lines of a block matter. */
  lemma {:induction false} BlockSays(h: HostData, word: string)
    requires Named(h) && IsSetting(word)
    ensures Values(word, Render(h)) == Values(word, Options(h))
  {
    HeadSays(h, word);
    HostLineSays(h.name, word, "Host " + h.name);
    RulesSay(h, word);
    BlankSays(word);
    ThreeSay(word, Options(h), Forwards(h), [""]);
    ThreeSay(word, Head(h), ["Host " + h.name], Rest(h));
  }

  // ---- The settings ----

  /** All settings in the order written. */
  function Settings(h: HostData): seq<(string, string)> {
    [("HostName", h.hostName)] + Connection(h) + Checking(h)
  }

  const TAGS: seq<(int, char, char)> :=
    [(8, 'h', 'n'), (4, 'u', 'e'), (4, 'p', 'r'), (12, 'i', 't'), (9, 'p', 'y'), (13, 'r', 'c'), (13, 'a', 's'),
     (18, 'u', 'h'), (21, 's', 'k'), (17, 'h', 'l'), (16, 'v', 's'), (7, 's', 'd')]

  lemma {:induction false} ConnectionTags(h: HostData, i: nat)
    requires i < 6
    ensures IsKey(Connection(h)[i].0) && KeyTag(Connection(h)[i].0) == TAGS[i + 1]
  {
    ConnectionInert(h);
    assert Connection(h)[i] in Connection(h);
    if i < 3 {
      ShortTags();
    } else {
      MiddleTags();
    }
  }

  lemma {:induction false} ShortTags()
    ensures KeyTag("User") == (4, 'u', 'e') && KeyTag("Port") == (4, 'p', 'r') &&
        KeyTag("IdentityFile") == (12, 'i', 't')
  {
  }

  lemma {:induction false} MiddleTags()
    ensures KeyTag("ProxyJump") == (9, 'p', 'y') && KeyTag("RemoteCommand") == (13, 'r', 'c')
    ensures KeyTag("AddressFamily") == (13, 'a', 's')
  {
  }

  lemma {:induction false} KnownTags()
    ensures KeyTag("UserKnownHostsFile") == (18, 'u', 'h') && KeyTag("StrictHostKeyChecking") == (21, 's', 'k')
  {
  }

  lemma {:induction false} LongTags()
    ensures KeyTag("HostKeyAlgorithms") == (17, 'h', 'l') && KeyTag("VerifyHostKeyDNS") == (16, 'v', 's')
    ensures KeyTag("SendEnv") == (7, 's', 'd')
  {
  }

  lemma {:induction false} CheckingTags(h: HostData, i: nat)
    requires i < 5
    ensures IsKey(Checking(h)[i].0) && KeyTag(Checking(h)[i].0) == TAGS[i + 7]
  {
    CheckingInert(h);
    assert Checking(h)[i] in Checking(h);
    if i < 2 {
      KnownTags();
    } else {
      LongTags();
    }
  }

  lemma {:induction false} SettingTags(h: HostData, i: nat)
    requires i < 12
    ensures IsKey(Settings(h)[i].0) && KeyTag(Settings(h)[i].0) == TAGS[i]
  {
    if i == 0 {
      assert SpaceFree("HostName");
    } else if i < 7 {
      assert Settings(h)[i] == Connection(h)[i - 1];
      ConnectionTags(h, i - 1);
    } else {
      assert Settings(h)[i] == Checking(h)[i - 7];
      CheckingTags(h, i - 7);
    }
  }

  lemma {:induction false} TagsDistinct(i: nat)
    requires i < 12
    ensures TAGS[i] !in {HOST_TAG, LOCAL_TAG, REMOTE_TAG, DYNAMIC_TAG}
    ensures forall j :: 0 <= j < 12 && j != i ==> TAGS[j] != TAGS[i]
  {
  }

  /** The line for HostName is written even without a value, and then says nothing. */
  lemma {:induction false} FirstLine(h: HostData, word: string)
    requires IsSetting(word)
    ensures Values(word, Options(h)) == Values(word, OptionLines(Settings(h)))
  {
    var first := [("HostName", h.hostName)];
    var line := OptionLine("HostName", h.hostName);
    OptionsAppend(first + Connection(h), Checking(h));
    OptionsAppend(first, Connection(h));
    FirstOption(word, first);
    assert first[1..] == [] && [line][1..] == [];
    if h.hostName == "" {
      SaysNothing("HostName", word);
    }
    ThreeSay(word, [line], OptionLines(Connection(h)), OptionLines(Checking(h)));
    ThreeSay(word, OptionLines(first), OptionLines(Connection(h)), OptionLines(Checking(h)));
  }

  lemma {:induction false} SaysNothing(k: string, word: string)
    requires IsKey(k) && IsKey(word)
    ensures Forward(word, TrimSpace(OptionLine(k, ""))) == []
  {
    assert k[0] in k && k[|k| - 1] in k;
    TrimIs("    ", k, " ");
    assert "    " + k + " " == OptionLine(k, "");
    if HasPrefix(ToLower(k), word + " ") {
      assert ToLower(k)[|word|] == ' ';
      LowerSpace(k[|word|]);
      assert false;
    }
  }

  lemma {:induction false} AmongAll(all: seq<(string, string)>, i: nat)
    requires Keys(all) && i < |all| && Trimmed(all[i].1) && IsKey(all[i].0)
    requires forall j :: 0 <= j < |all| && j != i ==> IsKey(all[j].0) && KeyTag(all[j].0) != KeyTag(all[i].0)
    ensures Values(ToLower(all[i].0), OptionLines(all)) == Shown(all[i].1)
  {
    var a, b := all[..i], all[i + 1..];
    assert all == a + [(all[i].0, all[i].1)] + b;
    forall p | p in a ensures IsKey(p.0) && KeyTag(p.0) != KeyTag(all[i].0) {
      var j :| 0 <= j < i && all[j] == p;
    }
    forall p | p in b ensures IsKey(p.0) && KeyTag(p.0) != KeyTag(all[i].0) {
      var j :| 0 <= j < |b| && b[j] == p;
      assert all[i + 1 + j] == p;
    }
    Among(a, all[i].0, all[i].1, b);
  }

  lemma {:induction false} SettingsApart(h: HostData, i: nat)
    requires i < 12
    ensures Keys(Settings(h)) && IsKey(Settings(h)[i].0) && IsSetting(ToLower(Settings(h)[i].0))
    ensures forall j :: 0 <= j < 12 && j != i ==>
      IsKey(Settings(h)[j].0) && KeyTag(Settings(h)[j].0) != KeyTag(Settings(h)[i].0)
  {
    SettingTags(h, i);
    TagsDistinct(i);
    forall j | 0 <= j < 12 ensures IsKey(Settings(h)[j].0) && KeyTag(Settings(h)[j].0) == TAGS[j] {
      SettingTags(h, j);
    }
    LowerKey(Settings(h)[i].0);
    LowerAgain(Settings(h)[i].0);
  }

  /** A setting with a trimmed value is read back, whatever the other settings are. */
  lemma {:induction false} SettingRead(h: HostData, i: nat)
    requires Named(h) && i < 12 && Trimmed(Settings(h)[i].1)
    ensures Values(ToLower(Settings(h)[i].0), Render(h)) == Shown(Settings(h)[i].1)
  {
    var word := ToLower(Settings(h)[i].0);
    SettingsApart(h, i);
    BlockSays(h, word);
    FirstLine(h, word);
    AmongAll(Settings(h), i);
  }

  datatype Setting =
    | HostName | User | Port | IdentityFile | ProxyJump | RemoteCommand | AddressFamily
    | UserKnownHostsFile | StrictHostKeyChecking | HostKeyAlgorithms | VerifyHostKeyDNS | SendEnv

  function KeywordOf(s: Setting): string {
    match s
    case HostName => "HostName"
    case User => "User"
    case Port => "Port"
    case IdentityFile => "IdentityFile"
    case ProxyJump => "ProxyJump"
    case RemoteCommand => "RemoteCommand"
    case AddressFamily => "AddressFamily"
    case UserKnownHostsFile => "UserKnownHostsFile"
    case StrictHostKeyChecking => "StrictHostKeyChecking"
    case HostKeyAlgorithms => "HostKeyAlgorithms"
    case VerifyHostKeyDNS => "VerifyHostKeyDNS"
    case SendEnv => "SendEnv"
  }

  function Argument(s: Setting, h: HostData): string {
    match s
    case HostName => h.hostName
    case User => h.user
    case Port => h.port
    case IdentityFile => h.identityFile
    case ProxyJump => h.proxyJump
    case RemoteCommand => h.remoteCommand
    case AddressFamily => h.addressFamily
    case UserKnownHostsFile => h.userKnownHostsFile
    case StrictHostKeyChecking => h.strictHostKeyChecking
    case HostKeyAlgorithms => h.hostKeyAlgorithms
    case VerifyHostKeyDNS => h.verifyHostKeyDNS
    case SendEnv => h.sendEnv
  }

  lemma {:induction false} Position(s: Setting, h: HostData) returns (i: nat)
    ensures i < 12 && Settings(h)[i] == (KeywordOf(s), Argument(s, h))
  {
    i := match s
      case HostName => 0
      case User => 1
      case Port => 2
      case IdentityFile => 3
      case ProxyJump => 4
      case RemoteCommand => 5
      case AddressFamily => 6
      case UserKnownHostsFile => 7
      case StrictHostKeyChecking => 8
      case HostKeyAlgorithms => 9
      case VerifyHostKeyDNS => 10
      case SendEnv => 11;
  }

  /** Reading a keyword in the rendered block gives the setting that belongs to it, once if it has a
      value, whatever the other settings are. */
  lemma {:induction false} SettingReadBack(s: Setting, h: HostData)
    requires Named(h) && Trimmed(Argument(s, h))
    ensures Values(ToLower(KeywordOf(s)), Render(h)) == Shown(Argument(s, h))
  {
    var i := Position(s, h);
    SettingRead(h, i);
  }

  // ---- Through the file ----

  /** The comment lines above the own block say nothing either. */
  lemma {:induction false} OwnSays(h: HostData, word: string, k: nat)
    requires Named(h) && IsKey(word) && k <= |CommentParts(h.comment)|
    ensures Values(word, Render(h)[k..]) == Values(word, Render(h))
  {
    var parts := CommentParts(h.comment);
    var p := Prefixed("### ", parts);
    if parts != [] {
      CommentStarts(h.comment);
    }
    MarkersSay(word, parts);
    assert p == p[..k] + p[k..];
    ValuesAppend(word, p[..k], p[k..]);
    RenderFrom(h, p, k);
    ValuesAppend(word, p[..k], Render(h)[k..]);
  }

  lemma {:induction false} RenderFrom(h: HostData, p: seq<string>, k: nat)
    requires p == Prefixed("### ", CommentParts(h.comment)) && k <= |p|
    ensures k <= |Render(h)| && Render(h) == p[..k] + Render(h)[k..]
  {
    assert Render(h)[..k] == p[..k];
  }

  /** The round trip of the settings: whatever the file held, a host that was saved and is read again has
      the argument of every keyword. `HostFile.SavedFileFrame` says the same of the other hosts. */
  lemma {:induction false} SettingThroughFile(file: Option<string>, oldAlias: string, h: HostData, s: Setting)
    requires Named(h) && OneLineValues(h) && Trimmed(Argument(s, h))
    ensures var again := Lines(Some(Written(Saved(Lines(file), oldAlias, h))));
      Block(again, h.name).Some? && Values(ToLower(KeywordOf(s)), Block(again, h.name).value) == Shown(Argument(s, h))
  {
    var word := ToLower(KeywordOf(s));
    var lines := Saved(Lines(file), oldAlias, h);
    LinesOneLine(file);
    SavedOneLine(Lines(file), oldAlias, h);
    Reread(lines, h.name, Keyword(word));
    SavedBlock(Lines(file), oldAlias, h);
    SettingReadBack(s, h);
    var i := Position(s, h);
    SettingsApart(h, i);
    OwnSays(h, word, OwnStart(CommentParts(h.comment)));
  }
}
