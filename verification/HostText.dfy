/** A host's settings as the lines of its block, and back. */
module HostText {
  import opened Basics
  import opened Text
  import opened HostBlocks
  import opened ConfigLines

  datatype HostData = HostData(
    name: string, hostName: string, user: string, port: string, identityFile: string, proxyJump: string,
    remoteCommand: string, addressFamily: string, userKnownHostsFile: string, strictHostKeyChecking: string,
    hostKeyAlgorithms: string, verifyHostKeyDNS: string, sendEnv: string,
    localForward: string, remoteForward: string, dynamicForward: string,
    tags: seq<string>, comment: string)

  // ---- Writing ----

  function TrimAll(lines: seq<string>): (r: seq<string>)
    ensures |r| == |lines|
  {
    if lines == [] then [] else [TrimSpace(lines[0])] + TrimAll(lines[1..])
  }

  function Prefixed(p: string, lines: seq<string>): (r: seq<string>)
    ensures |r| == |lines|
  {
    if lines == [] then [] else [p + lines[0]] + Prefixed(p, lines[1..])
  }

  /** The lines of a comment as they are saved. */
  function CommentParts(comment: string): seq<string> {
    if TrimSpace(comment) == "" then [] else TrimAll(Split(TrimSpace(comment), '\n'))
  }

  function TagLines(tags: seq<string>): seq<string> {
    if tags == [] then [] else ["### " + Join(Prefixed("#", tags), ' ')]
  }

  function OptionLine(key: string, value: string): string {
    "    " + key + " " + value
  }

  /** One line for every setting that has a value. */
  function OptionLines(settings: seq<(string, string)>): seq<string> {
    if settings == [] then []
    else
      var (key, value) := settings[0];
      (if value == "" then [] else [OptionLine(key, value)]) + OptionLines(settings[1..])
  }

  /** The forward rules in a text: its lines, trimmed, without blank ones and comments. */
  function RulesOf(lines: seq<string>): seq<string> {
    if lines == [] then []
    else
      var t := TrimSpace(lines[0]);
      (if t != "" && !HasPrefix(t, "#") then [t] else []) + RulesOf(lines[1..])
  }

  function Rules(text: string): seq<string> {
    RulesOf(Split(text, '\n'))
  }

  function Head(h: HostData): seq<string> {
    Prefixed("### ", CommentParts(h.comment)) + TagLines(h.tags)
  }

  function Connection(h: HostData): seq<(string, string)> {
    [("User", h.user), ("Port", h.port), ("IdentityFile", h.identityFile), ("ProxyJump", h.proxyJump),
     ("RemoteCommand", h.remoteCommand), ("AddressFamily", h.addressFamily)]
  }

  function Checking(h: HostData): seq<(string, string)> {
    [("UserKnownHostsFile", h.userKnownHostsFile), ("StrictHostKeyChecking", h.strictHostKeyChecking),
     ("HostKeyAlgorithms", h.hostKeyAlgorithms), ("VerifyHostKeyDNS", h.verifyHostKeyDNS),
     ("SendEnv", h.sendEnv)]
  }

  function Options(h: HostData): seq<string> {
    [OptionLine("HostName", h.hostName)] + OptionLines(Connection(h)) + OptionLines(Checking(h))
  }

  const LOCAL: string := "    " + "LocalForward" + " "
  const REMOTE: string := "    " + "RemoteForward" + " "
  const DYNAMIC: string := "    " + "DynamicForward" + " "

  function Forwards(h: HostData): seq<string> {
    Prefixed(LOCAL, Rules(h.localForward)) + Prefixed(REMOTE, Rules(h.remoteForward))
    + Prefixed(DYNAMIC, Rules(h.dynamicForward))
  }

  /** The lines after the Host line. */
  function Rest(h: HostData): seq<string> {
    Options(h) + Forwards(h) + [""]
  }

  function Render(h: HostData): seq<string> {
    Head(h) + ["Host " + h.name] + Rest(h)
  }

  /** The rendering half of `updateLines`. */
  method RenderBlock(h: HostData) returns (block: seq<string>)
    ensures block == Render(h)
  {
    block := RenderComment(h.comment);
    var tagLine := RenderTags(h.tags);
    block := block + tagLine;
    block := block + ["Host " + h.name];
    var local := RenderRules(LOCAL, h.localForward);
    var remote := RenderRules(REMOTE, h.remoteForward);
    var dynamic := RenderRules(DYNAMIC, h.dynamicForward);
    block := block + (Options(h) + (local + remote + dynamic) + [""]);
  }

  method RenderComment(text: string) returns (block: seq<string>)
    ensures block == Prefixed("### ", CommentParts(text))
  {
    block := [];
    if text != "" {
      var comment := TrimSpace(text);
      if comment != "" {
        var lines := Split(comment, '\n');
        for i := 0 to |lines|
          invariant block + Prefixed("### ", TrimAll(lines[i..])) == Prefixed("### ", TrimAll(lines))
        {
          ghost var rest := Prefixed("### ", TrimAll(lines[i + 1..]));
          assert lines[i..][1..] == lines[i + 1..];
          PrefixedFirst("### ", TrimSpace(lines[i]), TrimAll(lines[i + 1..]));
          ConcatAssoc(block, ["### " + TrimSpace(lines[i])], rest);
          block := block + ["### " + TrimSpace(lines[i])];
        }
      }
    }
  }

  lemma {:induction false} PrefixedFirst(p: string, line: string, rest: seq<string>)
    ensures Prefixed(p, [line] + rest) == [p + line] + Prefixed(p, rest)
  {
    assert ([line] + rest)[1..] == rest;
  }

  method RenderTags(tags: seq<string>) returns (block: seq<string>)
    ensures block == TagLines(tags)
  {
    block := [];
    if |tags| > 0 {
      var tagStrs: seq<string> := [];
      for i := 0 to |tags|
        invariant tagStrs + Prefixed("#", tags[i..]) == Prefixed("#", tags)
      {
        assert tags[i..] == [tags[i]] + tags[i + 1..];
        PrefixedFirst("#", tags[i], tags[i + 1..]);
        ConcatAssoc(tagStrs, ["#" + tags[i]], Prefixed("#", tags[i + 1..]));
        tagStrs := tagStrs + ["#" + tags[i]];
      }
      assert tagStrs + [] == tagStrs;
      block := ["### " + Join(tagStrs, ' ')];
    }
  }

  method RenderRules(key: string, text: string) returns (block: seq<string>)
    ensures block == Prefixed(key, Rules(text))
  {
    block := [];
    if text != "" {
      var lines := Split(text, '\n');
      for i := 0 to |lines|
        invariant block + Prefixed(key, RulesOf(lines[i..])) == Prefixed(key, RulesOf(lines))
      {
        var line := TrimSpace(lines[i]);
        assert lines[i..][1..] == lines[i + 1..];
        if line != "" && !HasPrefix(line, "#") {
          PrefixedFirst(key, line, RulesOf(lines[i + 1..]));
          ConcatAssoc(block, [key + line], Prefixed(key, RulesOf(lines[i + 1..])));
          block := block + [key + line];
        } else {
          assert [] + RulesOf(lines[i + 1..]) == RulesOf(lines[i + 1..]);
        }
      }
    } else {
      assert Split("", '\n') == [""] && TrimSpace("") == "" && RulesOf([""][1..]) == [];
    }
  }

  // ---- Reading ----

  /** What a reader may look for in a block: the five fields that the program scans itself, or the
      arguments of a keyword, given in lower case. */
  datatype Reading = Tags | Comments | Local | Remote | Dynamic | Keyword(word: string)

  type Field = f: Reading | !f.Keyword? witness Tags

  /** A comment line made of `#words` only holds tags. */
  predicate IsTagLine(content: string) {
    Fields(content) != [] && forall f <- Fields(content) :: HasPrefix(f, "#")
  }

  /** The words without their first character. */
  function Unhashed(words: seq<string>): seq<string>
    requires forall f <- words :: HasPrefix(f, "#")
  {
    if words == [] then []
    else
      assert HasPrefix(words[0], "#");
      [words[0][1..]] + Unhashed(words[1..])
  }

  /** The keyword, in lower case. */
  function Word(field: Reading): string {
    match field
    case Local => "localforward"
    case Remote => "remoteforward"
    case Dynamic => "dynamicforward"
    case Keyword(word) => word
    case _ => ""
  }

  function Forward(word: string, t: string): seq<string> {
    if HasPrefix(ToLower(t), word + " ") then
      var val := TrimSpace(t[|word| + 1..]);
      if val != "" then [val] else []
    else []
  }

  /** What one line of a block contributes to a field. */
  function Part(field: Reading, line: string): seq<string> {
    var t := TrimSpace(line);
    match field
    case Tags => if HasPrefix(t, "### ") && IsTagLine(t[4..]) then Unhashed(Fields(t[4..])) else []
    case Comments => if HasPrefix(t, "### ") && !IsTagLine(t[4..]) then [t[4..]] else []
    case _ => Forward(Word(field), t)
  }

  function Scan(field: Reading, lines: seq<string>): seq<string> {
    if lines == [] then [] else Part(field, lines[0]) + Scan(field, lines[1..])
  }

  lemma {:induction false} ScanAppend(field: Reading, a: seq<string>, b: seq<string>)
    ensures Scan(field, a + b) == Scan(field, a) + Scan(field, b)
    decreases |a|
  {
    if a == [] {
      assert a + b == b;
    } else {
      assert (a + b)[1..] == a[1..] + b;
      ScanAppend(field, a[1..], b);
    }
  }
}
