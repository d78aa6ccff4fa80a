/** The names of the files in the shared folder: how they are printed, and how `listRemoteFiles`
    reads them back from the answer to PROPFIND (section 9.1 of RFC 4918). */
module FileNames {
  import opened Basics
  import opened Text
  import Replication

  datatype ItemType = Button | Scratchpad | Vars | SshConfig | KnownHosts

  datatype FileInfo = FileInfo(filename: string, itemType: ItemType, id: string, ts: int, deleted: bool,
                               encrypted: bool)

  const FLAG_FILE := "encryption.flag"

  // ---- Printing ----

  function Prefix(t: ItemType): string {
    match t
    case Button => "button_"
    case Scratchpad => "scratchpad_"
    case Vars => "config_"
    case SshConfig => "sshconfig_"
    case KnownHosts => "knownhosts_"
  }

  predicate IsSsh(t: ItemType) {
    t == SshConfig || t == KnownHosts
  }

  function Extension(t: ItemType, encrypted: bool): string {
    if encrypted then ".bin" else if IsSsh(t) then ".txt" else ".json"
  }

  /** Everything between the prefix and the extension. */
  function Middle(t: ItemType, id: string, ts: int, deleted: bool): string {
    (if t == Vars then "" else id + "_") + PrintInt(ts) + (if deleted then "_d" else "")
  }

  function Print(t: ItemType, id: string, ts: int, deleted: bool, encrypted: bool): string {
    Prefix(t) + Middle(t, id, ts, deleted) + Extension(t, encrypted)
  }

  // ---- Parsing ----

  /** The extension the parser expects, if the name has it. */
  function SuffixOf(filename: string, encrypted: bool): (s: Option<string>)
    ensures s.Some? ==> HasSuffix(filename, s.value) && s.value != [] && s.value[0] == '.'
  {
    var ssh := HasPrefix(filename, "sshconfig_") || HasPrefix(filename, "knownhosts_");
    if encrypted then if HasSuffix(filename, ".bin") then Some(".bin") else None
    else if ssh then if HasSuffix(filename, ".txt") then Some(".txt") else None
    else if HasSuffix(filename, ".json") then Some(".json") else None
  }

  /** The kind of a file and the length of its prefix. Older versions wrote `vars_`. */
  function TypeOf(filename: string): (r: Option<(ItemType, nat)>)
    ensures r.Some? ==> r.value.1 <= |filename| && '.' !in filename[..r.value.1]
  {
    if HasPrefix(filename, "button_") then Some((Button, 7))
    else if HasPrefix(filename, "scratchpad_") then Some((Scratchpad, 11))
    else if HasPrefix(filename, "vars_") then Some((Vars, 5))
    else if HasPrefix(filename, "config_") then Some((Vars, 7))
    else if HasPrefix(filename, "sshconfig_") then Some((SshConfig, 10))
    else if HasPrefix(filename, "knownhosts_") then Some((KnownHosts, 11))
    else None
  }

  /** Prefix and extension never overlap, so cutting both off is always in range. */
  lemma {:induction false} NoOverlap(filename: string, suffix: string, n: nat)
    requires HasSuffix(filename, suffix) && suffix != [] && suffix[0] == '.'
    requires n <= |filename| && '.' !in filename[..n]
    ensures n + |suffix| <= |filename|
  {
    assert filename[|filename| - |suffix|] == suffix[0];
    forall j | 0 <= j < n ensures filename[j] != '.' {
      assert filename[j] == filename[..n][j];
    }
  }

  /** The part of a name between prefix and extension, split into id, timestamp and state. */
  function ParseMiddle(base: string, itemType: ItemType): Option<(string, int, bool)> {
    var deleted := HasSuffix(base, "_d");
    var name := if deleted then base[..|base| - 2] else base;
    if itemType == Vars then
      var ts := ParseInt(name);
      if ts.None? then None else Some(("global", ts.value, deleted))
    else
      var cut := LastIndex(name, '_');
      if cut == -1 then None else
      var ts := ParseInt(name[cut + 1..]);
      if ts.None? then None else Some((name[..cut], ts.value, deleted))
  }

  function Parse(filename: string, encrypted: bool): Option<FileInfo> {
    var suffix := SuffixOf(filename, encrypted);
    if suffix.None? then None else
    var typ := TypeOf(filename);
    if typ.None? then None else
    var (itemType, n) := typ.value;
    NoOverlap(filename, suffix.value, n);
    var rawName := filename[n..];
    var m := ParseMiddle(rawName[..|rawName| - |suffix.value|], itemType);
    if m.None? then None else Some(FileInfo(filename, itemType, m.value.0, m.value.1, m.value.2, encrypted))
  }

  /** `path.Base`: the last component of a path. */
  function Base(p: string): string {
    if p == "" then "."
    else
      var q := StripSlashes(p);
      if q == "" then "/" else q[LastIndex(q, '/') + 1..]
  }

  function StripSlashes(p: string): string {
    if p != [] && p[|p| - 1] == '/' then StripSlashes(p[..|p| - 1]) else p
  }

  // ---- Round trip ----

  lemma {:induction false} TypeOfPrinted(t: ItemType, rest: string)
    ensures TypeOf(Prefix(t) + rest) == Some((t, |Prefix(t)|))
    ensures HasPrefix(Prefix(t) + rest, "sshconfig_") <==> t == SshConfig
    ensures HasPrefix(Prefix(t) + rest, "knownhosts_") <==> t == KnownHosts
  {
    var s := Prefix(t) + rest;
    assert s[0] == Prefix(t)[0];
    assert s[1] == Prefix(t)[1];
    match t
    case Button => assert s[..7] == "button_";
    case Scratchpad => assert s[..11] == "scratchpad_";
    case Vars => assert s[..7] == "config_";
    case SshConfig => assert s[..10] == "sshconfig_";
    case KnownHosts => assert s[..11] == "knownhosts_";
  }

  lemma {:induction false} SuffixOfPrinted(t: ItemType, middle: string, encrypted: bool)
    ensures SuffixOf(Prefix(t) + middle + Extension(t, encrypted), encrypted) == Some(Extension(t, encrypted))
  {
    var s := Prefix(t) + middle + Extension(t, encrypted);
    assert s == Prefix(t) + (middle + Extension(t, encrypted));
    TypeOfPrinted(t, middle + Extension(t, encrypted));
    assert s[|s| - |Extension(t, encrypted)|..] == Extension(t, encrypted);
  }

  lemma {:induction false} MiddleReadBack(t: ItemType, id: string, ts: int, deleted: bool)
    ensures var base := Middle(t, id, ts, deleted);
            && (HasSuffix(base, "_d") <==> deleted)
            && (if deleted then base[..|base| - 2] else base) == Middle(t, id, ts, false)
  {
    var base := Middle(t, id, ts, deleted);
    var name := Middle(t, id, ts, false);
    assert name[|name| - 1] == PrintInt(ts)[|PrintInt(ts)| - 1];
    if deleted {
      assert base == name + "_d";
    }
  }

  lemma {:induction false} ParseMiddleOfPrint(t: ItemType, id: string, ts: int, deleted: bool)
    requires IsInt64(ts)
    ensures ParseMiddle(Middle(t, id, ts, deleted), t) == Some((if t == Vars then "global" else id, ts, deleted))
  {
    MiddleReadBack(t, id, ts, deleted);
    ParsePrinted(ts);
    var name := Middle(t, id, ts, false);
    if t == Vars {
      assert name == PrintInt(ts);
    } else {
      AtCut(id, PrintInt(ts), name);
    }
  }

  lemma {:induction false} AtCut(id: string, digits: string, name: string)
    requires name == id + "_" + digits && '_' !in digits
    ensures LastIndex(name, '_') == |id| && name[..|id|] == id && name[|id| + 1..] == digits
  {
    assert name == id + ['_'] + digits;
    LastIndexAt(name, id, '_', digits);
  }

  lemma {:induction false} ParseParts(t: ItemType, middle: string, encrypted: bool, filename: string)
    requires filename == Prefix(t) + middle + Extension(t, encrypted) && ParseMiddle(middle, t).Some?
    ensures var m := ParseMiddle(middle, t).value;
            Parse(filename, encrypted) == Some(FileInfo(filename, t, m.0, m.1, m.2, encrypted))
  {
    var ext := Extension(t, encrypted);
    CutOut(Prefix(t), middle, ext, filename);
    TypeOfPrinted(t, middle + ext);
    SuffixOfPrinted(t, middle, encrypted);
  }

  lemma {:induction false} CutOut(a: string, b: string, c: string, all: string)
    requires all == a + b + c
    ensures all == a + (b + c) && |all| >= |a| && |all[|a|..]| >= |c| && all[|a|..][..|all[|a|..]| - |c|] == b
  {
    assert all[|a|..] == b + c;
  }

  /** Parsing a printed name gives everything back, for every id, also one that contains `_` or ends
      in `_d`, every 64-bit timestamp and either state. */
  lemma {:induction false} ParseOfPrint(t: ItemType, id: string, ts: int, deleted: bool, encrypted: bool)
    requires IsInt64(ts)
    ensures var name := Print(t, id, ts, deleted, encrypted);
            Parse(name, encrypted) == Some(FileInfo(name, t, if t == Vars then "global" else id, ts, deleted, encrypted))
  {
    ParseMiddleOfPrint(t, id, ts, deleted);
    ParseParts(t, Middle(t, id, ts, deleted), encrypted, Print(t, id, ts, deleted, encrypted));
  }

  /** Different files have different names. */
  lemma {:induction false} PrintInjective(t: ItemType, id: string, ts: int, deleted: bool, t': ItemType, id': string,
                                          ts': int, deleted': bool, encrypted: bool)
    requires IsInt64(ts) && IsInt64(ts')
    requires Print(t, id, ts, deleted, encrypted) == Print(t', id', ts', deleted', encrypted)
    ensures t == t' && ts == ts' && deleted == deleted' && (t != Vars ==> id == id')
  {
    ParseOfPrint(t, id, ts, deleted, encrypted);
    ParseOfPrint(t', id', ts', deleted', encrypted);
  }

  // ---- Which names are read ----

  /** The prefixes. Older versions wrote the variables as `vars_`. */
  predicate Begins(t: ItemType, pre: string) {
    match t
    case Button => pre == "button_"
    case Scratchpad => pre == "scratchpad_"
    case Vars => pre == "config_" || pre == "vars_"
    case SshConfig => pre == "sshconfig_"
    case KnownHosts => pre == "knownhosts_"
  }

  /** Id and underscore, which the variables do not have, the timestamp, and the mark of a deletion. */
  function Inner(t: ItemType, id: string, num: string, deleted: bool): string {
    (if t == Vars then "" else id + "_") + num + (if deleted then "_d" else "")
  }

  /** The name is that of a file of this kind: prefix, id, timestamp, mark, extension. Noughts and a sign before
      the timestamp are allowed. */
  ghost predicate Spells(name: string, encrypted: bool, t: ItemType, pre: string, id: string, num: string, ts: int,
                         deleted: bool) {
    && Begins(t, pre) && ParseInt(num) == Some(ts)
    && name == pre + Inner(t, id, num, deleted) +
               (if encrypted then ".bin" else if t == SshConfig || t == KnownHosts then ".txt" else ".json")
  }

  lemma {:induction false} Began(t: ItemType, pre: string, rest: string)
    requires Begins(t, pre)
    ensures TypeOf(pre + rest) == Some((t, |pre|))
    ensures HasPrefix(pre + rest, "sshconfig_") <==> t == SshConfig
    ensures HasPrefix(pre + rest, "knownhosts_") <==> t == KnownHosts
  {
    if pre == "vars_" {
      var s := pre + rest;
      assert s[0] == pre[0] && s[..5] == "vars_";
    } else {
      TypeOfPrinted(t, rest);
    }
  }

  lemma {:induction false} NumberEnds(num: string, ts: int)
    requires ParseInt(num) == Some(ts)
    ensures num != "" && IsDigit(num[|num| - 1]) && '_' !in num
  {
    var sign, k := ParsedForm(num, ts);
    var p := PrintNat(if ts < 0 then -ts else ts);
    assert num[|num| - 1] == p[|p| - 1] && p[|p| - 1] in p;
    forall c | c in num ensures c != '_' {
      assert c in sign || c in Noughts(k) || c in p;
    }
  }

  lemma {:induction false} InnerRead(t: ItemType, id: string, num: string, ts: int, deleted: bool, base: string)
    requires ParseInt(num) == Some(ts) && base == Inner(t, id, num, deleted)
    ensures ParseMiddle(base, t) == Some((if t == Vars then "global" else id, ts, deleted))
  {
    NumberEnds(num, ts);
    var name := if t == Vars then num else id + "_" + num;
    assert name[|name| - 1] == num[|num| - 1];
    MarkRead(base, name, deleted);
    if t != Vars {
      AtCut(id, num, name);
    }
  }

  lemma {:induction false} MarkRead(base: string, name: string, deleted: bool)
    requires name != "" && IsDigit(name[|name| - 1])
    requires base == name + (if deleted then "_d" else "") || base == "" + name + (if deleted then "_d" else "")
    ensures deleted == HasSuffix(base, "_d") && name == if deleted then base[..|base| - 2] else base
  {
    if deleted {
      assert base == name + "_d";
    } else {
      assert base == name;
    }
  }

  lemma {:induction false} SpelledParts(pre: string, inner: string, ext: string, t: ItemType, encrypted: bool,
                                        name: string)
    requires Begins(t, pre) && name == pre + inner + ext && ext == Extension(t, encrypted)
    requires ParseMiddle(inner, t).Some?
    ensures var m := ParseMiddle(inner, t).value;
            Parse(name, encrypted) == Some(FileInfo(name, t, m.0, m.1, m.2, encrypted))
  {
    CutOut(pre, inner, ext, name);
    Began(t, pre, inner + ext);
    SpelledExtension(pre, inner, ext, t, encrypted, name);
  }

  lemma {:induction false} SpelledExtension(pre: string, inner: string, ext: string, t: ItemType, encrypted: bool,
                                            name: string)
    requires Begins(t, pre) && name == pre + inner + ext && ext == Extension(t, encrypted)
    ensures SuffixOf(name, encrypted) == Some(ext)
  {
    Began(t, pre, inner + ext);
    assert name == pre + (inner + ext);
    assert name[|name| - |ext|..] == ext;
  }

  /** A name in this form is read as what it spells, */
  lemma {:induction false} SpelledIsRead(name: string, encrypted: bool, t: ItemType, pre: string, id: string,
                                         num: string, ts: int, deleted: bool)
    requires Spells(name, encrypted, t, pre, id, num, ts, deleted)
    ensures Parse(name, encrypted) ==
            Some(FileInfo(name, t, if t == Vars then "global" else id, ts, deleted, encrypted))
  {
    InnerRead(t, id, num, ts, deleted, Inner(t, id, num, deleted));
    SpelledParts(pre, Inner(t, id, num, deleted), Extension(t, encrypted), t, encrypted, name);
  }

  /** and no other name is. */
  lemma {:induction false} ReadIsSpelled(name: string, encrypted: bool) returns (pre: string, num: string)
    requires Parse(name, encrypted).Some?
    ensures var f := Parse(name, encrypted).value;
      && Spells(name, encrypted, f.itemType, pre, f.id, num, f.ts, f.deleted)
      && f == FileInfo(name, f.itemType, f.id, f.ts, f.deleted, encrypted) && (f.itemType == Vars ==> f.id == "global")
  {
    var f := Parse(name, encrypted).value;
    var n, ext := ReadParts(name, encrypted, f);
    pre := name[..n];
    var inner := name[n..][..|name[n..]| - |ext|];
    ThreeParts(name, n, ext, pre, inner);
    PrefixKnown(name, f.itemType, n);
    num := InnerSpelled(inner, f.itemType, f.id, f.ts, f.deleted);
    ExtensionIs(name, encrypted, f.itemType, pre, inner + ext, ext);
  }

  lemma {:induction false} ExtensionIs(name: string, encrypted: bool, t: ItemType, pre: string, rest: string,
                                      ext: string)
    requires Begins(t, pre) && name == pre + rest && SuffixOf(name, encrypted) == Some(ext)
    ensures ext == if encrypted then ".bin" else if t == SshConfig || t == KnownHosts then ".txt" else ".json"
  {
    Began(t, pre, rest);
  }

  lemma {:induction false} ReadParts(name: string, encrypted: bool, f: FileInfo) returns (n: nat, ext: string)
    requires Parse(name, encrypted) == Some(f)
    ensures f.filename == name && f.encrypted == encrypted
    ensures SuffixOf(name, encrypted) == Some(ext) && TypeOf(name) == Some((f.itemType, n)) && n + |ext| <= |name|
    ensures ParseMiddle(name[n..][..|name[n..]| - |ext|], f.itemType) == Some((f.id, f.ts, f.deleted))
  {
    ext := SuffixOf(name, encrypted).value;
    n := TypeOf(name).value.1;
    NoOverlap(name, ext, n);
  }

  lemma {:induction false} ThreeParts(name: string, n: nat, ext: string, pre: string, inner: string)
    requires HasSuffix(name, ext) && n + |ext| <= |name| && pre == name[..n]
    requires inner == name[n..][..|name[n..]| - |ext|]
    ensures name == pre + inner + ext && name == pre + (inner + ext)
  {
  }

  lemma {:induction false} PrefixKnown(name: string, t: ItemType, n: nat)
    requires TypeOf(name) == Some((t, n))
    ensures n <= |name| && Begins(t, name[..n])
  {
  }

  lemma {:induction false} InnerSpelled(base: string, t: ItemType, id: string, ts: int, deleted: bool)
    returns (num: string)
    requires ParseMiddle(base, t) == Some((id, ts, deleted))
    ensures ParseInt(num) == Some(ts) && base == Inner(t, id, num, deleted) && (t == Vars ==> id == "global")
  {
    var name := MiddleIs(base, t, id, ts, deleted);
    if t == Vars {
      num := name;
    } else {
      num := CutSpelled(name, id, ts);
    }
    MarkSpelled(base, name, deleted);
    InnerIs(t, id, num, deleted, name, base);
  }

  lemma {:induction false} MiddleIs(base: string, t: ItemType, id: string, ts: int, deleted: bool)
    returns (name: string)
    requires ParseMiddle(base, t) == Some((id, ts, deleted))
    ensures deleted == HasSuffix(base, "_d") && name == if deleted then base[..|base| - 2] else base
    ensures t == Vars ==> id == "global" && ParseInt(name) == Some(ts)
    ensures t != Vars ==>
              var cut := LastIndex(name, '_'); cut >= 0 && name[..cut] == id && ParseInt(name[cut + 1..]) == Some(ts)
  {
    name := if deleted then base[..|base| - 2] else base;
  }

  lemma {:induction false} InnerIs(t: ItemType, id: string, num: string, deleted: bool, name: string, base: string)
    requires name == if t == Vars then num else id + "_" + num
    requires base == name + if deleted then "_d" else ""
    ensures base == Inner(t, id, num, deleted)
  {
    assert "" + num == num;
  }

  lemma {:induction false} MarkSpelled(base: string, name: string, deleted: bool)
    requires deleted == HasSuffix(base, "_d") && name == if deleted then base[..|base| - 2] else base
    ensures base == name + if deleted then "_d" else ""
  {
    if deleted {
      assert base == base[..|base| - 2] + base[|base| - 2..];
    } else {
      assert base == base + "";
    }
  }

  lemma {:induction false} CutSpelled(name: string, id: string, ts: int) returns (num: string)
    requires var cut := LastIndex(name, '_'); cut >= 0 && name[..cut] == id && ParseInt(name[cut + 1..]) == Some(ts)
    ensures ParseInt(num) == Some(ts) && name == id + "_" + num
  {
    var cut := LastIndex(name, '_');
    num := name[cut + 1..];
    assert name == name[..cut] + "_" + name[cut + 1..];
  }

  /** The name of a deletion, whose id ends like the mark of one. */
  lemma {:induction false} DeletionExample(name: string)
    requires name == Print(Button, "a_d", 12, true, false)
    ensures name == "button_a_d_12_d.json"
  {
    assert PrintNat(12) == PrintNat(1) + "2" && PrintNat(1) == "1";
  }

  /** The older name of the variables is read. */
  lemma {:induction false} OldVarsExample(name: string)
    requires name == "vars_07.bin"
    ensures Parse(name, true) == Some(FileInfo(name, Vars, "global", 7, false, true))
  {
    assert PrintNat(7) == "7" && Noughts(1) == "0";
    FormParsed("07", 7, "", 1);
    SpelledIsRead(name, true, Vars, "vars_", "", "07", 7, false);
  }

  /** Files that are not encrypted are skipped when the folder is. */
  lemma {:induction false} OtherExtension(name: string)
    requires name == "button_a_12.json"
    ensures Parse(name, true) == None
  {
    assert name[|name| - 4..] == "json";
  }

  // ---- The listing ----

  /** The name of a button or page file. */
  function ItemName(f: Replication.RemoteFile, encrypted: bool): string {
    Print(if f.key.kind.Button? then Button else Scratchpad, f.key.id, f.ts, f.deleted, encrypted)
  }

  /** The abstract files of `Replication` are the names of the folder: equal names, equal files. */
  lemma {:induction false} ItemNameInjective(f: Replication.RemoteFile, g: Replication.RemoteFile, encrypted: bool)
    requires IsInt64(f.ts) && IsInt64(g.ts)
    ensures ItemName(f, encrypted) == ItemName(g, encrypted) <==> f == g
  {
    if ItemName(f, encrypted) == ItemName(g, encrypted) {
      PrintInjective(if f.key.kind.Button? then Button else Scratchpad, f.key.id, f.ts, f.deleted,
                     if g.key.kind.Button? then Button else Scratchpad, g.key.id, g.ts, g.deleted, encrypted);
    }
  }

  /** What the listing is made of: the parsed files in order, and whether the flag file was seen. */
  function Files(hrefs: seq<string>, encrypted: bool): seq<FileInfo> {
    if hrefs == [] then []
    else
      var front, last := Files(hrefs[..|hrefs| - 1], encrypted), Base(hrefs[|hrefs| - 1]);
      if last == FLAG_FILE || Parse(last, encrypted).None? then front else front + [Parse(last, encrypted).value]
  }

  function HasFlag(hrefs: seq<string>): bool {
    hrefs != [] && (HasFlag(hrefs[..|hrefs| - 1]) || Base(hrefs[|hrefs| - 1]) == FLAG_FILE)
  }

  /** The file at a path, if its last component is in the form of a file name. */
  function Found(href: string, encrypted: bool): Option<FileInfo> {
    if Base(href) == "encryption.flag" then None else Parse(Base(href), encrypted)
  }

  lemma {:induction false} FilesStep(hrefs: seq<string>, encrypted: bool)
    requires hrefs != []
    ensures var f := Found(hrefs[|hrefs| - 1], encrypted);
      && (f.None? ==> Files(hrefs, encrypted) == Files(hrefs[..|hrefs| - 1], encrypted))
      && (f.Some? ==> Files(hrefs, encrypted) == Files(hrefs[..|hrefs| - 1], encrypted) + [f.value])
  {
  }

  function FoundAll(hrefs: seq<string>, encrypted: bool): (fs: seq<Option<FileInfo>>)
    ensures |fs| == |hrefs| && forall i :: 0 <= i < |hrefs| ==> fs[i] == Found(hrefs[i], encrypted)
  {
    seq(|hrefs|, i requires 0 <= i < |hrefs| => Found(hrefs[i], encrypted))
  }

  /** `out` are the values that are there, in order; `at` are their positions. */
  ghost predicate Selects(found: seq<Option<FileInfo>>, at: seq<nat>, out: seq<FileInfo>) {
    && |at| == |out|
    && (forall k :: 0 <= k < |at| ==> at[k] < |found| && found[at[k]] == Some(out[k]))
    && (forall k, l :: 0 <= k < l < |at| ==> at[k] < at[l])
    && (forall i: nat {:trigger i in at} :: i in at <==> i < |found| && found[i].Some?)
  }

  lemma {:induction false} SelectsNone(found: seq<Option<FileInfo>>, more: seq<Option<FileInfo>>, at: seq<nat>,
                                       out: seq<FileInfo>)
    requires Selects(found, at, out) && more == found + [None]
    ensures Selects(more, at, out)
  {
    forall k | 0 <= k < |at| ensures at[k] < |more| && more[at[k]] == Some(out[k]) {
      assert more[at[k]] == found[at[k]];
    }
    forall i: nat ensures i in at <==> i < |more| && more[i].Some? {
      assert i in at <==> i < |found| && found[i].Some?;
    }
  }

  lemma {:induction false} SelectsSome(found: seq<Option<FileInfo>>, more: seq<Option<FileInfo>>, f: FileInfo,
                                       before: seq<nat>, at: seq<nat>, out: seq<FileInfo>, all: seq<FileInfo>)
    requires Selects(found, before, out) && more == found + [Some(f)] && at == before + [|found|] && all == out + [f]
    ensures Selects(more, at, all)
  {
    forall k | 0 <= k < |at| ensures at[k] < |more| && more[at[k]] == Some(all[k]) {
      if k < |before| {
        assert at[k] == before[k] && more[at[k]] == found[before[k]];
      }
    }
    forall i: nat ensures i in at <==> i < |more| && more[i].Some? {
      assert i in at <==> i in before || i == |found|;
      assert i in before <==> i < |found| && found[i].Some?;
    }
  }

  function Somes(found: seq<Option<FileInfo>>): seq<FileInfo> {
    if found == [] then []
    else
      var front, last := Somes(found[..|found| - 1]), found[|found| - 1];
      if last.None? then front else front + [last.value]
  }

  lemma {:induction false} SomesSelected(found: seq<Option<FileInfo>>) returns (at: seq<nat>)
    ensures Selects(found, at, Somes(found))
    decreases |found|
  {
    if found == [] {
      at := [];
    } else {
      var front, last := found[..|found| - 1], found[|found| - 1];
      var before := SomesSelected(front);
      assert found == front + [last];
      if last.None? {
        at := before;
        SelectsNone(front, found, at, Somes(front));
      } else {
        at := before + [|front|];
        SelectsSome(front, found, last.value, before, at, Somes(front), Somes(found));
      }
    }
  }

  lemma {:induction false} FilesAreSomes(hrefs: seq<string>, encrypted: bool)
    ensures Files(hrefs, encrypted) == Somes(FoundAll(hrefs, encrypted))
    decreases |hrefs|
  {
    if hrefs != [] {
      var front := hrefs[..|hrefs| - 1];
      FilesAreSomes(front, encrypted);
      FilesStep(hrefs, encrypted);
      assert FoundAll(hrefs, encrypted)[..|hrefs| - 1] == FoundAll(front, encrypted);
    }
  }

  /** The listing has exactly the files of the paths whose last component is in the form of a file name and is
      not the flag file, in order. */
  lemma {:induction false} ListingExactly(hrefs: seq<string>, encrypted: bool) returns (at: seq<nat>)
    ensures Selects(FoundAll(hrefs, encrypted), at, Files(hrefs, encrypted))
  {
    at := SomesSelected(FoundAll(hrefs, encrypted));
    FilesAreSomes(hrefs, encrypted);
  }

  lemma {:induction false} FlagExactly(hrefs: seq<string>)
    ensures HasFlag(hrefs) <==> exists h <- hrefs :: Base(h) == "encryption.flag"
    decreases |hrefs|
  {
    if hrefs != [] {
      var n := |hrefs| - 1;
      FlagExactly(hrefs[..n]);
      assert hrefs == hrefs[..n] + [hrefs[n]];
    }
  }

  method ListRemoteFiles(hrefs: seq<string>, encrypted: bool) returns (files: seq<FileInfo>, hasEncryptionFlag: bool)
    ensures files == Files(hrefs, encrypted)
    ensures hasEncryptionFlag == HasFlag(hrefs)
  {
    files, hasEncryptionFlag := [], false;
    var i := 0;
    assert hrefs[..0] == [];
    while i < |hrefs|
      invariant 0 <= i <= |hrefs|
      invariant files == Files(hrefs[..i], encrypted)
      invariant hasEncryptionFlag == HasFlag(hrefs[..i])
    {
      ghost var upTo := hrefs[..i + 1];
      assert upTo[..|upTo| - 1] == hrefs[..i] && upTo[|upTo| - 1] == hrefs[i];
      var filename := Base(hrefs[i]);
      var parsed := Parse(filename, encrypted);
      if filename == FLAG_FILE {
        hasEncryptionFlag := true;
      } else if parsed.Some? {
        files := files + [parsed.value];
      }
      i := i + 1;
    }
    assert hrefs[..|hrefs|] == hrefs;
  }

  lemma {:induction false} BaseOfFile(dir: string, name: string)
    requires name != [] && '/' !in name
    ensures Base(dir + "/" + name) == name
  {
    var p := dir + ['/'] + name;
    assert p == dir + "/" + name && p[|p| - 1] == name[|name| - 1];
    LastIndexAt(p, dir, '/', name);
  }

  /** The last component of any path: what stands behind its last slash, those at the end aside. */
  lemma {:induction false} BaseOfPath(dir: string, name: string, slashes: string)
    requires name != [] && '/' !in name && (dir == "" || dir[|dir| - 1] == '/') && forall c <- slashes :: c == '/'
    ensures Base(dir + name + slashes) == name
    decreases |slashes|
  {
    var p := dir + name + slashes;
    if slashes == "" {
      assert p == dir + name && p[|p| - 1] == name[|name| - 1];
      if dir == "" {
        assert p == name;
        assert LastIndex(name, '/') == -1;
      } else {
        assert dir == dir[..|dir| - 1] + ['/'];
        assert p == dir[..|dir| - 1] + ['/'] + name;
        LastIndexAt(p, dir[..|dir| - 1], '/', name);
      }
    } else {
      var n := |slashes| - 1;
      assert slashes[n] in slashes && forall c <- slashes[..n] :: c in slashes;
      assert p[..|p| - 1] == dir + name + slashes[..n] && p[|p| - 1] == slashes[n];
      BaseOfPath(dir, name, slashes[..n]);
    }
  }

  /** What the folder may hold: the flag file, and files of every kind. */
  datatype Entry = Flag | File(itemType: ItemType, id: string, ts: int, deleted: bool)

  function NameOf(e: Entry, encrypted: bool): string {
    match e
    case Flag => FLAG_FILE
    case File(t, id, ts, deleted) => Print(t, id, ts, deleted, encrypted)
  }

  function PrintAll(es: seq<Entry>, dir: string, encrypted: bool): seq<string> {
    if es == [] then []
    else PrintAll(es[..|es| - 1], dir, encrypted) + [dir + "/" + NameOf(es[|es| - 1], encrypted)]
  }

  function InfoOf(e: Entry, encrypted: bool): FileInfo
    requires e.File?
  {
    FileInfo(NameOf(e, encrypted), e.itemType, if e.itemType == Vars then "global" else e.id, e.ts, e.deleted, encrypted)
  }

  function InfosOf(es: seq<Entry>, encrypted: bool): seq<FileInfo> {
    if es == [] then []
    else if es[|es| - 1].Flag? then InfosOf(es[..|es| - 1], encrypted)
    else InfosOf(es[..|es| - 1], encrypted) + [InfoOf(es[|es| - 1], encrypted)]
  }

  predicate Printable(e: Entry) {
    e.File? ==> IsInt64(e.ts) && '/' !in e.id
  }

  lemma {:induction false} ReadBackOne(e: Entry, dir: string, encrypted: bool)
    requires Printable(e) && e.File?
    ensures var name := Base(dir + "/" + NameOf(e, encrypted));
            name != FLAG_FILE && Parse(name, encrypted) == Some(InfoOf(e, encrypted))
  {
    ParseOfPrint(e.itemType, e.id, e.ts, e.deleted, encrypted);
    BaseOfPrint(e.itemType, e.id, e.ts, e.deleted, encrypted, dir);
  }

  lemma {:induction false} BaseOfPrint(t: ItemType, id: string, ts: int, deleted: bool, encrypted: bool, dir: string)
    requires '/' !in id
    ensures var name := Print(t, id, ts, deleted, encrypted); Base(dir + "/" + name) == name && name != FLAG_FILE
  {
    var name := Print(t, id, ts, deleted, encrypted);
    NoSlash(t, id, ts, deleted, encrypted);
    BaseOfFile(dir, name);
    assert name[0] == Prefix(t)[0];
  }

  lemma {:induction false} FilesAppend(hrefs: seq<string>, h: string, encrypted: bool, info: FileInfo)
    requires Base(h) != FLAG_FILE && Parse(Base(h), encrypted) == Some(info)
    ensures Files(hrefs + [h], encrypted) == Files(hrefs, encrypted) + [info] &&
        (HasFlag(hrefs + [h]) <==> HasFlag(hrefs))
  {
    assert (hrefs + [h])[..|hrefs|] == hrefs;
  }

  lemma {:induction false} FlagAppend(hrefs: seq<string>, dir: string, encrypted: bool)
    ensures var h := dir + "/" + FLAG_FILE;
      Files(hrefs + [h], encrypted) == Files(hrefs, encrypted) && HasFlag(hrefs + [h])
  {
    var h := dir + "/" + FLAG_FILE;
    BaseOfFile(dir, FLAG_FILE);
    assert (hrefs + [h])[..|hrefs|] == hrefs;
  }

  /** Listing a folder of printed names and flag files, under any directory, yields exactly those files,
      in order, and finds the flag file exactly if it is there. */
  lemma {:induction false} ListingReadsBack(es: seq<Entry>, dir: string, encrypted: bool)
    requires forall e <- es :: Printable(e)
    ensures Files(PrintAll(es, dir, encrypted), encrypted) == InfosOf(es, encrypted)
    ensures HasFlag(PrintAll(es, dir, encrypted)) <==> Flag in es
    decreases |es|
  {
    if es != [] {
      var front, e := es[..|es| - 1], es[|es| - 1];
      assert es == front + [e];
      var hrefs := PrintAll(front, dir, encrypted);
      ListingReadsBack(front, dir, encrypted);
      if e.Flag? {
        FlagAppend(hrefs, dir, encrypted);
      } else {
        ReadBackOne(e, dir, encrypted);
        FilesAppend(hrefs, dir + "/" + NameOf(e, encrypted), encrypted, InfoOf(e, encrypted));
      }
    }
  }

  lemma {:induction false} NoSlash(t: ItemType, id: string, ts: int, deleted: bool, encrypted: bool)
    requires '/' !in id
    ensures '/' !in Print(t, id, ts, deleted, encrypted)
  {
    assert '/' !in Prefix(t) && '/' !in Extension(t, encrypted) && '/' !in PrintInt(ts);
  }
}
