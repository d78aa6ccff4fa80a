/** What one run of `performSync` does to the button and scratchpad files of the shared folder.

    A file name is represented by what `listRemoteFiles` parses out of it; module `FileNames`
    proves that printing and parsing are inverse, so two names that the program writes are equal
    exactly when their parsed forms are. Buttons and pages go through the same code twice, hence one `Kind`. */
module Replication {
  import opened Basics

  datatype Kind = Button | Page

  datatype Key = Key(kind: Kind, id: string)

  datatype RemoteFile = RemoteFile(key: Key, ts: nat, deleted: bool)

  /** A button or page: its modification time and everything else it holds. */
  datatype Item = Item(ts: nat, body: string)

  /** What one device keeps: live items, and the deletion times of items it has deleted. */
  datatype Store = Store(active: map<Key, Item>, tombs: map<Key, nat>)

  type Folder = map<RemoteFile, string>

  /** 30 days in milliseconds. */
  const MAX_AGE: int := 30 * 24 * 3600 * 1000

  predicate Expired(f: RemoteFile, now: int) {
    f.deleted && now - f.ts > MAX_AGE
  }

  /** `cleanDeletedMaps`: forget deletions of items that are live again, and old ones. */
  function Cleaned(s: Store, now: int): Store {
    Store(s.active, map k | k in s.tombs && k !in s.active && now - s.tombs[k] <= MAX_AGE :: s.tombs[k])
  }

  /** Which deletions a run still knows: those of items that are not there again and are at most
      2592000000 ms (30 days) old. A deletion file is expired when it is older than that. */
  lemma {:induction false} AgeLimit(s: Store, f: RemoteFile, now: int, k: Key)
    ensures Expired(f, now) <==> f.deleted && f.ts + 2592000000 < now
    ensures k in Cleaned(s, now).tombs <==> k in s.tombs && k !in s.active && now <= s.tombs[k] + 2592000000
    ensures k in Cleaned(s, now).tombs ==> Cleaned(s, now).tombs[k] == s.tombs[k]
    ensures Cleaned(s, now).active == s.active
  {
  }

  /** The timestamp a device would upload for a key, -1 when it knows nothing about it. */
  function LocalTS(s: Store, k: Key): int {
    if k in s.active then s.active[k].ts else if k in s.tombs then s.tombs[k] else -1
  }

  function Known(s: Store): set<Key> {
    s.active.Keys + s.tombs.Keys
  }

  // ---- The winner among the remote files of one key ----

  type Winners = map<Key, RemoteFile>

  /** `w` picks, for exactly the keys that have an unexpired file, one with the greatest timestamp. */
  ghost predicate Picks(w: Winners, files: set<RemoteFile>, now: int) {
    && (forall k <- w :: w[k] in files && w[k].key == k && !Expired(w[k], now))
    && (forall f <- files :: !Expired(f, now) ==> f.key in w && f.ts <= w[f.key].ts)
  }

  function RemoteTS(w: Winners, k: Key): int {
    if k in w then w[k].ts else -1
  }

  // ---- The operations of one run ----

  predicate Pushes(s: Store, w: Winners, k: Key) {
    LocalTS(s, k) > RemoteTS(w, k)
  }

  predicate Pulls(s: Store, w: Winners, k: Key) {
    RemoteTS(w, k) > LocalTS(s, k)
  }

  function UploadName(s: Store, k: Key): RemoteFile
    requires k in Known(s)
  {
    if k in s.active then RemoteFile(k, s.active[k].ts, false) else RemoteFile(k, s.tombs[k], true)
  }

  function UploadBody(s: Store, k: Key): string
    requires k in Known(s)
  {
    if k in s.active then s.active[k].body else "{}"
  }

  function Uploads(s: Store, w: Winners): set<RemoteFile> {
    set k | k in Known(s) && Pushes(s, w, k) :: UploadName(s, k)
  }

  function UploadDocs(s: Store, w: Winners): Folder {
    map f | f in Uploads(s, w) && f.key in Known(s) :: UploadBody(s, f.key)
  }

  function Kept(s: Store, w: Winners): set<RemoteFile> {
    set k | k in w && !Pushes(s, w, k) :: w[k]
  }

  function Deletes(files: set<RemoteFile>, s: Store, w: Winners): set<RemoteFile> {
    files - Kept(s, w)
  }

  /** The device after the downloaded changes are applied. */
  function Applied(s: Store, w: Winners, folder: Folder): Store
    requires forall k <- w :: w[k] in folder
  {
    Store(
      map k | k in s.active.Keys + w.Keys && (if Pulls(s, w, k) then k in w && !w[k].deleted else k in s.active) ::
        if Pulls(s, w, k) then Item(w[k].ts, folder[w[k]]) else s.active[k],
      map k | k in s.tombs.Keys + w.Keys && ((Pulls(s, w, k) && k in w && w[k].deleted) || k in s.tombs) ::
        if Pulls(s, w, k) && k in w && w[k].deleted then w[k].ts else s.tombs[k])
  }

  /** The folder after all PUTs and all DELETEs. */
  function Synced(folder: Folder, s: Store, w: Winners): Folder {
    (folder + UploadDocs(s, w)) - Deletes(folder.Keys, s, w)
  }

  // ---- One run leaves one file per key, and the device agrees with it ----

  lemma {:induction false} UploadIsNew(files: set<RemoteFile>, s: Store, w: Winners, now: int, k: Key)
    requires s == Cleaned(s, now) && Picks(w, files, now)
    requires k in Known(s) && Pushes(s, w, k)
    ensures UploadName(s, k) !in files && !Expired(UploadName(s, k), now)
  {
    if k !in s.active {
      assert k in Cleaned(s, now).tombs;
    }
  }

  lemma {:induction false} SyncedFiles(folder: Folder, s: Store, w: Winners, now: int)
    requires s == Cleaned(s, now) && Picks(w, folder.Keys, now)
    ensures Synced(folder, s, w).Keys == Uploads(s, w) + Kept(s, w)
    ensures forall f <- Uploads(s, w) :: f !in folder.Keys && Synced(folder, s, w)[f] == UploadBody(s, f.key)
    ensures forall f <- Kept(s, w) :: f in folder && f !in Uploads(s, w) && Synced(folder, s, w)[f] == folder[f]
  {
    forall f | f in Uploads(s, w)
      ensures f !in folder.Keys && f in UploadDocs(s, w)
    {
      var k :| k in Known(s) && Pushes(s, w, k) && f == UploadName(s, k);
      UploadIsNew(folder.Keys, s, w, now, k);
    }
    forall f | f in Kept(s, w) ensures f in folder {
      var k :| k in w && !Pushes(s, w, k) && f == w[k];
    }
  }

  ghost predicate OnlyFile(files: set<RemoteFile>, k: Key, f: RemoteFile) {
    f in files && f.key == k && forall g <- files :: g.key == k ==> g == f
  }

  ghost predicate NoFile(files: set<RemoteFile>, k: Key) {
    forall g <- files :: g.key != k
  }

  lemma {:induction false} KeptOfKey(s: Store, w: Winners, files: set<RemoteFile>, now: int, f: RemoteFile)
    requires Picks(w, files, now)
    requires f in Uploads(s, w) + Kept(s, w)
    ensures if f in Uploads(s, w)
            then f.key in Known(s) && Pushes(s, w, f.key) && f == UploadName(s, f.key)
            else f.key in w && !Pushes(s, w, f.key) && f == w[f.key]
  {
    if f in Uploads(s, w) {
      var k :| k in Known(s) && Pushes(s, w, k) && f == UploadName(s, k);
    } else {
      var k :| k in w && !Pushes(s, w, k) && f == w[k];
    }
  }

  /** After a run the device's timestamp for a key is the greater of its own and the folder's. */
  lemma {:induction false} AppliedTS(s: Store, w: Winners, folder: Folder, k: Key)
    requires forall x <- w :: w[x] in folder && w[x].key == x
    requires forall x <- s.tombs :: x !in s.active
    ensures LocalTS(Applied(s, w, folder), k) == Max(LocalTS(s, k), RemoteTS(w, k))
  {
    var a := Applied(s, w, folder);
    assert k in a.active <==> if Pulls(s, w, k) then k in w && !w[k].deleted else k in s.active;
  }

  lemma {:induction false} PushedKey(folder: Folder, s: Store, w: Winners, now: int, k: Key)
    requires s == Cleaned(s, now) && Picks(w, folder.Keys, now)
    requires Pushes(s, w, k)
    ensures k in Known(s) && OnlyFile(Synced(folder, s, w).Keys, k, UploadName(s, k))
  {
    SyncedFiles(folder, s, w, now);
    assert UploadName(s, k) in Uploads(s, w);
    forall g | g in Synced(folder, s, w).Keys && g.key == k ensures g == UploadName(s, k) {
      KeptOfKey(s, w, folder.Keys, now, g);
    }
  }

  lemma {:induction false} KeptKey(folder: Folder, s: Store, w: Winners, now: int, k: Key)
    requires s == Cleaned(s, now) && Picks(w, folder.Keys, now)
    requires !Pushes(s, w, k) && k in w
    ensures OnlyFile(Synced(folder, s, w).Keys, k, w[k])
  {
    SyncedFiles(folder, s, w, now);
    assert w[k] in Kept(s, w);
    forall g | g in Synced(folder, s, w).Keys && g.key == k ensures g == w[k] {
      KeptOfKey(s, w, folder.Keys, now, g);
    }
  }

  lemma {:induction false} AbsentKey(folder: Folder, s: Store, w: Winners, now: int, k: Key)
    requires s == Cleaned(s, now) && Picks(w, folder.Keys, now)
    requires k !in w && k !in Known(s)
    ensures NoFile(Synced(folder, s, w).Keys, k)
  {
    SyncedFiles(folder, s, w, now);
    forall g | g in Synced(folder, s, w).Keys ensures g.key != k {
      KeptOfKey(s, w, folder.Keys, now, g);
    }
  }

  /** The file that is left for a key after a run, if any. */
  function Survivor(s: Store, w: Winners, k: Key): RemoteFile
    requires k in Known(s) || k in w
  {
    if Pushes(s, w, k) && k in Known(s) then UploadName(s, k) else if k in w then w[k] else UploadName(s, k)
  }

  /** After a run a key has one file at most, and it carries the greater of the two timestamps. */
  lemma {:induction false} SyncedKey(folder: Folder, s: Store, w: Winners, now: int, k: Key)
    requires s == Cleaned(s, now) && Picks(w, folder.Keys, now)
    ensures if k in Known(s) || k in w
            then
              && OnlyFile(Synced(folder, s, w).Keys, k, Survivor(s, w, k))
              && Survivor(s, w, k).ts == Max(LocalTS(s, k), RemoteTS(w, k))
              && !Expired(Survivor(s, w, k), now)
            else NoFile(Synced(folder, s, w).Keys, k)
  {
    if Pushes(s, w, k) {
      PushedKey(folder, s, w, now, k);
      UploadIsNew(folder.Keys, s, w, now, k);
    } else if k in w {
      KeptKey(folder, s, w, now, k);
    } else {
      AbsentKey(folder, s, w, now, k);
    }
  }

  /** The two stores say the same of a key. */
  ghost predicate SameAt(a: Store, b: Store, k: Key) {
    && (k in a.active <==> k in b.active) && (k in a.active ==> k in b.active && a.active[k] == b.active[k])
    && (k in a.tombs <==> k in b.tombs) && (k in a.tombs ==> k in b.tombs && a.tombs[k] == b.tombs[k])
  }

  /** A run, seen from one key of the cleaned store. What is newer here becomes the key's only file, with its
      text or, for a deletion, an empty object, and nothing changes here. What is newer there stays the only
      file, and the item is taken over whole, or goes and leaves its deletion time. */
  lemma {:induction false} RunOfKey(folder: Folder, s: Store, now: int, w: Winners, k: Key)
    requires s == Cleaned(s, now) && Picks(w, folder.Keys, now)
    ensures var a, after := Applied(s, w, folder), Synced(folder, s, w);
      var local := if k in s.active then s.active[k].ts else if k in s.tombs then s.tombs[k] else -1;
      var remote := if k in w then w[k].ts else -1;
      && (local > remote ==>
            var f := RemoteFile(k, local, k !in s.active);
            && OnlyFile(after.Keys, k, f) && after[f] == (if k in s.active then s.active[k].body else "{}")
            && SameAt(a, s, k))
      && (local <= remote && k in w ==> OnlyFile(after.Keys, k, w[k]) && after[w[k]] == folder[w[k]])
      && (local == remote ==> SameAt(a, s, k))
      && (local < remote && w[k].deleted ==> k !in a.active && k in a.tombs && a.tombs[k] == remote)
      && (local < remote && !w[k].deleted ==> k in a.active && a.active[k] == Item(remote, folder[w[k]]))
  {
    SyncedFiles(folder, s, w, now);
    if Pushes(s, w, k) {
      PushedKey(folder, s, w, now, k);
      assert UploadName(s, k) in Uploads(s, w);
    } else if k in w {
      KeptKey(folder, s, w, now, k);
      assert w[k] in Kept(s, w);
    }
  }

  lemma {:induction false} CleanedTwice(s: Store, now: int)
    ensures Cleaned(Cleaned(s, now), now) == Cleaned(s, now)
    ensures forall k <- Cleaned(s, now).tombs :: k !in s.active
  {
  }

  /** Deletions learnt from the folder are recent, so cleaning does not forget them. */
  lemma {:induction false} CleanedApplied(s: Store, w: Winners, folder: Folder, now: int, k: Key)
    requires s == Cleaned(s, now) && Picks(w, folder.Keys, now)
    ensures LocalTS(Cleaned(Applied(s, w, folder), now), k) == LocalTS(Applied(s, w, folder), k)
  {
    var a := Applied(s, w, folder);
    if k in a.tombs && k !in a.active {
      if Pulls(s, w, k) {
        assert !Expired(w[k], now);
      } else {
        assert k in Cleaned(s, now).tombs;
      }
    }
  }

  /** Right after a run the device and the folder agree on the timestamp of every key, and no key
      has a second file. */
  lemma {:induction false} Settled(folder: Folder, s0: Store, now: int, w: Winners, w2: Winners, k: Key)
    requires var s := Cleaned(s0, now);
             && Picks(w, folder.Keys, now)
             && Picks(w2, Synced(folder, s, w).Keys, now)
    ensures var s := Cleaned(s0, now);
            && LocalTS(Cleaned(Applied(s, w, folder), now), k) == RemoteTS(w2, k)
            && forall f <- Synced(folder, s, w).Keys :: f.key == k ==> k in w2 && f == w2[k]
  {
    var s := Cleaned(s0, now);
    CleanedTwice(s0, now);
    SyncedKey(folder, s, w, now, k);
    AppliedTS(s, w, folder, k);
    CleanedApplied(s, w, folder, now, k);
  }

  /** Running the synchronisation again at once issues no PUT and no DELETE and changes nothing. */
  lemma {:induction false} Quiescent(folder: Folder, s0: Store, now: int, w: Winners, w2: Winners)
    requires var s := Cleaned(s0, now);
             && Picks(w, folder.Keys, now)
             && Picks(w2, Synced(folder, s, w).Keys, now)
    ensures var s := Cleaned(s0, now);
            var folder' := Synced(folder, s, w);
            var s' := Cleaned(Applied(s, w, folder), now);
            && Uploads(s', w2) == {}
            && Deletes(folder'.Keys, s', w2) == {}
            && (forall k :: !Pulls(s', w2, k))
            && Applied(s', w2, folder') == s'
  {
    var s := Cleaned(s0, now);
    var folder' := Synced(folder, s, w);
    var s' := Cleaned(Applied(s, w, folder), now);
    forall k
      ensures !Pulls(s', w2, k) && !Pushes(s', w2, k)
      ensures forall f <- folder'.Keys :: f.key == k ==> k in w2 && f == w2[k]
    {
      Settled(folder, s0, now, w, w2, k);
    }
    assert Uploads(s', w2) == {};
    forall f | f in folder'.Keys ensures f in Kept(s', w2) {
      assert f.key in w2 && f == w2[f.key];
    }
    ApplyNothing(s', w2, folder');
  }

  lemma {:induction false} ApplyNothing(s: Store, w: Winners, folder: Folder)
    requires forall k <- w :: w[k] in folder
    requires forall k :: !Pulls(s, w, k)
    ensures Applied(s, w, folder) == s
  {
    var a := Applied(s, w, folder);
    assert a.active == s.active;
    assert a.tombs == s.tombs;
  }
}
