/**
 Backup and restore of the storage directory. A restore moves each file aside,
 copies its backup in, and either forgets the old files or puts them all back.

 The file system is a map from full paths to contents. The daemon names a file in
 two ways: the directory objects take an absolute name as it stands, while the
 paths it copies from and to are put together, whatever the name. Removing a file
 and renaming one onto a free path succeed; renaming onto a taken path fails, as
 does copying onto one; a copy may fail for outside reasons and then leaves
 nothing behind.
 */
module Backup {
  import opened Common

  type Files = map<string, string>

  const BAK := ".bak"
  const BACKUP_DIR := "/backup"

  predicate Absolute(name: string) {
    name != "" && name[0] == '/'
  }

  /** QDir::filePath. */
  function FilePath(dir: string, name: string): string {
    if Absolute(name) then name else dir + "/" + name
  }

  /** Directory, separator and name; two separators in a row count as one. */
  function Joined(dir: string, name: string): string {
    if Absolute(name) then dir + name else dir + "/" + name
  }

  // Where one named file may be, root being the storage path.

  /** In the storage directory, as its directory object sees it. */
  function Live(root: string, name: string): string { FilePath(root, name) }

  function Aside(root: string, name: string): string { FilePath(root, name + BAK) }

  /** Where copies are made from in a backup, and to in a restore. */
  function Source(root: string, name: string): string { Joined(root, name) }

  /** Where copies are made to in a backup, and from in a restore. */
  function Stored(root: string, name: string): string { Joined(root + BACKUP_DIR, name) }

  /** In the backup directory, as its directory object sees it. */
  function Cleared(root: string, name: string): string { FilePath(root + BACKUP_DIR, name) }

  function Places(root: string, name: string): set<string> {
    {Live(root, name), Aside(root, name), Source(root, name), Stored(root, name), Cleared(root, name)}
  }

  /** A file right in the backup directory. */
  predicate InBackupDir(root: string, x: string) {
    var dir := root + BACKUP_DIR + "/";
    |x| > |dir| && x[..|dir|] == dir && '/' !in x[|dir|..]
  }

  /** The names are distinct, and no place of one is a place of another. */
  ghost predicate Apart(root: string, names: seq<string>) {
    && root != ""
    && (forall i, j :: 0 <= i < j < |names| ==> names[i] != names[j])
    && (forall f, g :: f in names && g in names && f != g ==> Places(root, f) !! Places(root, g))
    && (forall f :: f in names ==> Aside(root, f) != Source(root, f) && !InBackupDir(root, Live(root, f)))
  }

  /** A relative name has three places; for an absolute one, clearing the backup
      directory means the live file, and copies go by a path of their own. */
  lemma OwnPlaces(root: string, f: string)
    requires root != ""
    ensures Live(root, f) != Aside(root, f)
    ensures Stored(root, f) != Live(root, f) && Stored(root, f) != Aside(root, f) && Stored(root, f) != Source(root, f)
    ensures if Absolute(f) then Cleared(root, f) == Live(root, f) && Source(root, f) != Live(root, f)
            else Cleared(root, f) == Stored(root, f) && Source(root, f) == Live(root, f)
  {
    assert |Aside(root, f)| == |Live(root, f)| + 4;
    assert |Stored(root, f)| == |Source(root, f)| + 7;
    assert |Source(root, f)| == |Live(root, f)| + if Absolute(f) then |root| else 0;
  }

  ghost predicate Outside(root: string, names: seq<string>, x: string) {
    forall f :: f in names ==> x !in Places(root, f)
  }

  function Get(files: Files, x: string): Option<string> {
    if x in files then Some(files[x]) else None
  }

  lemma SameFiles(a: Files, b: Files)
    requires forall x :: Get(a, x) == Get(b, x)
    ensures a == b
  {
    forall x ensures x in a <==> x in b
             ensures x in a ==> a[x] == b[x]
    {
      assert Get(a, x) == Get(b, x);
    }
  }

  /** The next name's places are outside those before it, and the other way round. */
  lemma NextIsApart(root: string, names: seq<string>, n: nat)
    requires Apart(root, names) && n < |names|
    ensures names[..n + 1] == names[..n] + [names[n]]
    ensures forall x :: x in Places(root, names[n]) ==> Outside(root, names[..n], x)
    ensures forall g, x :: g in names[..n] && x in Places(root, g) ==> x !in Places(root, names[n])
    ensures forall x :: Outside(root, names[..n + 1], x) ==> Outside(root, names[..n], x) && x !in Places(root, names[n])
    ensures names[n] !in names[..n]
  {
    var f := names[n];
    assert names[..n + 1] == names[..n] + [f];
    forall g | g in names[..n] ensures g in names && g != f && Places(root, g) !! Places(root, f) {
      assert f in names;
    }
    assert f in names[..n + 1];
  }

  // ------------------------------------------------------------ restoring

  /** How far a restore has come. */
  datatype Progress = Progress(files: Files, moved: seq<string>, copied: seq<string>, ok: bool)

  /** QDir::rename onto a free path. */
  function Rename(files: Files, from: string, to: string): Files
    requires from in files
  {
    (files - {from})[to := files[from]]
  }

  /** The file is moved aside: it is there, and its aside path is free. */
  predicate Moves(root: string, files: Files, f: string) {
    Live(root, f) in files && Aside(root, f) !in files
  }

  function MoveAside(root: string, p: Progress, f: string): Progress {
    if Moves(root, p.files, f)
    then p.(files := Rename(p.files, Live(root, f), Aside(root, f)), moved := p.moved + [f]) else p
  }

  function CopyIn(root: string, p: Progress, f: string, copyOk: bool): Progress {
    if Stored(root, f) !in p.files then p
    else if copyOk && Source(root, f) !in p.files
    then p.(files := p.files[Source(root, f) := p.files[Stored(root, f)]], copied := p.copied + [f])
    else p.(ok := false)
  }

  function RestoreOne(root: string, p: Progress, f: string, copyOk: bool): Progress {
    CopyIn(root, MoveAside(root, p, f), f, copyOk)
  }

  /** The first n files, stopping at the first failed copy. */
  function Forward(root: string, files: Files, names: seq<string>, copies: seq<bool>, n: nat): Progress
    requires n <= |names| == |copies|
  {
    if n == 0 then Progress(files, [], [], true)
    else
      var p := Forward(root, files, names, copies, n - 1);
      if p.ok then RestoreOne(root, p, names[n - 1], copies[n - 1]) else p
  }

  function Lives(root: string, names: seq<string>): set<string> { set f | f in names :: Live(root, f) }

  function Asides(root: string, names: seq<string>): set<string> { set f | f in names :: Aside(root, f) }

  function RenameBackOne(root: string, files: Files, f: string): Files {
    if Aside(root, f) in files && Live(root, f) !in files then Rename(files, Aside(root, f), Live(root, f)) else files
  }

  function RenameBack(root: string, files: Files, moved: seq<string>): Files {
    if moved == [] then files
    else RenameBackOne(root, RenameBack(root, files, moved[..|moved| - 1]), moved[|moved| - 1])
  }

  function Restore(root: string, files: Files, names: seq<string>, copies: seq<bool>): (Files, bool)
    requires |names| == |copies|
  {
    var p := Forward(root, files, names, copies, |names|);
    if p.ok then (p.files - Asides(root, p.moved), true)
    else (RenameBack(root, p.files - Lives(root, p.copied), p.moved), false)
  }

  // What happens is told name by name.

  /** A leftover aside file keeps the old file from being moved. */
  predicate Shielded(root: string, files: Files, f: string) {
    Live(root, f) in files && Aside(root, f) in files
  }

  /** The file has a backup that cannot be copied in. */
  predicate Blocked(root: string, files: Files, f: string, copyOk: bool) {
    && Stored(root, f) in files
    && !(copyOk && if Absolute(f) then Source(root, f) !in files else !Shielded(root, files, f))
  }

  /** One file in the middle of a restore, compared with the file system before. */
  ghost predicate Midway(root: string, files: Files, p: Progress, f: string) {
    && (f in p.moved <==> Moves(root, files, f))
    && (f in p.copied ==> Stored(root, f) in files)
    && (f in p.copied && !Absolute(f) ==> !Shielded(root, files, f))
    && (f in p.copied && Absolute(f) ==> Source(root, f) !in files)
    && (p.ok && Stored(root, f) in files ==> f in p.copied)
    && Get(p.files, Stored(root, f)) == Get(files, Stored(root, f))
    && Get(p.files, Aside(root, f)) == (if f in p.moved then Get(files, Live(root, f)) else Get(files, Aside(root, f)))
    && Get(p.files, Live(root, f))
       == (if f in p.copied && !Absolute(f) then Get(files, Stored(root, f))
           else if f in p.moved then None else Get(files, Live(root, f)))
    && (Absolute(f) ==>
          Get(p.files, Source(root, f)) == Get(files, if f in p.copied then Stored(root, f) else Source(root, f)))
  }

  lemma RestoreOneEffect(root: string, files: Files, p: Progress, f: string, copyOk: bool)
    requires root != "" && Aside(root, f) != Source(root, f)
    requires p.ok && f !in p.moved && f !in p.copied
    requires forall x :: x in Places(root, f) ==> Get(p.files, x) == Get(files, x)
    ensures var q := RestoreOne(root, p, f, copyOk);
            && Midway(root, files, q, f)
            && q.ok == !Blocked(root, files, f, copyOk)
            && (forall x :: x !in Places(root, f) ==> Get(q.files, x) == Get(p.files, x))
            && (forall g :: g != f ==> (g in q.moved <==> g in p.moved))
            && (forall g :: g != f ==> (g in q.copied <==> g in p.copied))
  {
    OwnPlaces(root, f);
    MoveAsideEffect(root, files, p, f);
    CopyInEffect(root, files, MoveAside(root, p, f), f, copyOk);
  }

  lemma MoveAsideEffect(root: string, files: Files, p: Progress, f: string)
    requires Live(root, f) != Aside(root, f) && f !in p.moved
    requires forall x :: x in Places(root, f) ==> Get(p.files, x) == Get(files, x)
    ensures var q := MoveAside(root, p, f);
            && (f in q.moved <==> Moves(root, files, f))
            && q == p.(files := q.files, moved := q.moved)
            && Get(q.files, Live(root, f)) == (if f in q.moved then None else Get(files, Live(root, f)))
            && Get(q.files, Aside(root, f)) == Get(files, if f in q.moved then Live(root, f) else Aside(root, f))
            && (forall x :: x != Live(root, f) && x != Aside(root, f) ==> Get(q.files, x) == Get(p.files, x))
            && (forall g :: g != f ==> (g in q.moved <==> g in p.moved))
  {
    assert Get(p.files, Live(root, f)) == Get(files, Live(root, f));
    assert Get(p.files, Aside(root, f)) == Get(files, Aside(root, f));
  }

  lemma CopyInEffect(root: string, files: Files, p: Progress, f: string, copyOk: bool)
    requires root != "" && Aside(root, f) != Source(root, f)
    requires p.ok && f !in p.copied && (f in p.moved <==> Moves(root, files, f))
    requires Get(p.files, Live(root, f)) == if f in p.moved then None else Get(files, Live(root, f))
    requires Get(p.files, Aside(root, f)) == Get(files, if f in p.moved then Live(root, f) else Aside(root, f))
    requires Get(p.files, Stored(root, f)) == Get(files, Stored(root, f))
    requires Absolute(f) ==> Get(p.files, Source(root, f)) == Get(files, Source(root, f))
    ensures var q := CopyIn(root, p, f, copyOk);
            && Midway(root, files, q, f)
            && q.ok == !Blocked(root, files, f, copyOk)
            && (forall x :: x !in Places(root, f) ==> Get(q.files, x) == Get(p.files, x))
            && (forall g :: g in q.moved <==> g in p.moved)
            && (forall g :: g != f ==> (g in q.copied <==> g in p.copied))
  {
    OwnPlaces(root, f);
  }

  /** Everything said about a restore in progress after n files. */
  ghost predicate Shape(root: string, files: Files, names: seq<string>, p: Progress, n: nat)
    requires n <= |names|
  {
    && (forall f :: f in names[..n] ==> Midway(root, files, p, f))
    && (forall x :: Outside(root, names[..n], x) ==> Get(p.files, x) == Get(files, x))
    && (forall f :: f in p.moved || f in p.copied ==> f in names[..n])
  }

  /** Where a restore stands after m files: it stops at the first that is blocked. */
  ghost predicate Standing(root: string, files: Files, names: seq<string>, copies: seq<bool>, p: Progress, m: nat)
    requires m <= |names| == |copies|
  {
    && Shape(root, files, names, p, m)
    && (forall k :: 0 <= k < m - 1 ==> Passed(root, files, names, copies, p, k))
    && (if p.ok then m > 0 ==> Passed(root, files, names, copies, p, m - 1)
        else m > 0 && Blocked(root, files, names[m - 1], copies[m - 1]) && names[m - 1] !in p.copied)
  }

  predicate Passed(root: string, files: Files, names: seq<string>, copies: seq<bool>, p: Progress, k: nat)
    requires k < |names| == |copies|
  {
    !Blocked(root, files, names[k], copies[k]) && (Stored(root, names[k]) in files ==> names[k] in p.copied)
  }

  lemma {:induction false} ForwardShape(root: string, files: Files, names: seq<string>, copies: seq<bool>, n: nat)
    returns (m: nat)
    requires Apart(root, names) && n <= |names| == |copies|
    ensures m <= n && (Forward(root, files, names, copies, n).ok ==> m == n)
    ensures Standing(root, files, names, copies, Forward(root, files, names, copies, n), m)
  {
    if n == 0 {
      m := 0;
      StandingStarts(root, files, names, copies);
    } else {
      m := ForwardShape(root, files, names, copies, n - 1);
      if Forward(root, files, names, copies, n - 1).ok {
        StandingGrows(root, files, names, copies, Forward(root, files, names, copies, n - 1), n - 1);
        m := n;
      }
    }
  }

  lemma StandingStarts(root: string, files: Files, names: seq<string>, copies: seq<bool>)
    requires |names| == |copies|
    ensures Standing(root, files, names, copies, Progress(files, [], [], true), 0)
  {
  }

  lemma StandingGrows(root: string, files: Files, names: seq<string>, copies: seq<bool>, p: Progress, n: nat)
    requires Apart(root, names) && n < |names| == |copies| && p.ok && Standing(root, files, names, copies, p, n)
    ensures Standing(root, files, names, copies, RestoreOne(root, p, names[n], copies[n]), n + 1)
  {
    var q := RestoreOne(root, p, names[n], copies[n]);
    ShapeGrows(root, files, names, p, n, copies[n]);
    forall k | 0 <= k < n ensures Passed(root, files, names, copies, q, k) {
      assert Passed(root, files, names, copies, p, k);
    }
    assert names[n] in names[..n + 1] && Midway(root, files, q, names[n]);
  }

  lemma ShapeGrows(root: string, files: Files, names: seq<string>, p: Progress, n: nat, copyOk: bool)
    requires Apart(root, names) && n < |names| && p.ok && Shape(root, files, names, p, n)
    ensures var q := RestoreOne(root, p, names[n], copyOk);
            && Shape(root, files, names, q, n + 1)
            && q.ok == !Blocked(root, files, names[n], copyOk)
            && (!q.ok ==> names[n] !in q.copied)
            && (forall g :: g in p.copied ==> g in q.copied)
  {
    var f, q := names[n], RestoreOne(root, p, names[n], copyOk);
    NextIsApart(root, names, n);
    assert f in names;
    RestoreOneEffect(root, files, p, f, copyOk);
    forall g | g in names[..n + 1] ensures Midway(root, files, q, g) {
      if g != f {
        assert g in names[..n] && Midway(root, files, p, g);
        forall x | x in Places(root, g) ensures Get(q.files, x) == Get(p.files, x) {}
        StillMidway(root, files, p, q, g);
      }
    }
  }

  lemma StillMidway(root: string, files: Files, p: Progress, q: Progress, g: string)
    requires Midway(root, files, p, g) && p.ok
    requires forall x :: x in Places(root, g) ==> Get(q.files, x) == Get(p.files, x)
    requires (g in q.moved <==> g in p.moved) && (g in q.copied <==> g in p.copied)
    ensures Midway(root, files, q, g)
  {
  }

  /** A restore succeeds exactly if no file is blocked: each one that has a backup can
      be copied, and was moved out of the way. */
  lemma RestoreSucceedsExactly(root: string, files: Files, names: seq<string>, copies: seq<bool>)
    requires Apart(root, names) && |names| == |copies|
    ensures Restore(root, files, names, copies).1 <==>
            forall k :: 0 <= k < |names| ==> !Blocked(root, files, names[k], copies[k])
  {
    var p := Forward(root, files, names, copies, |names|);
    var m := ForwardShape(root, files, names, copies, |names|);
    if p.ok {
      forall k | 0 <= k < |names| ensures !Blocked(root, files, names[k], copies[k]) {
        assert Passed(root, files, names, copies, p, k);
      }
    }
  }

  // ------------------------------------------------------- a failed restore

  lemma {:induction false} RenameBackEffect(root: string, files: Files, moved: seq<string>, names: seq<string>,
                                            f: string)
    requires Apart(root, names) && f in names && forall g :: g in moved ==> g in names
    requires f in moved ==> Live(root, f) !in files && Aside(root, f) in files
    ensures var r := RenameBack(root, files, moved);
            && Get(r, Live(root, f)) == Get(files, if f in moved then Aside(root, f) else Live(root, f))
            && Get(r, Aside(root, f)) == (if f in moved then None else Get(files, Aside(root, f)))
            && (forall x :: x in Places(root, f) && x != Live(root, f) && x != Aside(root, f) ==> Get(r, x) == Get(files, x))
  {
    OwnPlaces(root, f);
    if moved != [] {
      var n := |moved| - 1;
      var g := moved[n];
      assert moved == moved[..n] + [g];
      RenameBackEffect(root, files, moved[..n], names, f);
      if g != f {
        assert g in names && Places(root, f) !! Places(root, g);
      }
    }
  }

  lemma {:induction false} RenameBackFrame(root: string, files: Files, moved: seq<string>, x: string)
    requires Outside(root, moved, x)
    ensures Get(RenameBack(root, files, moved), x) == Get(files, x)
  {
    if moved != [] {
      var n := |moved| - 1;
      assert moved == moved[..n] + [moved[n]];
      assert x !in Places(root, moved[n]);
      RenameBackFrame(root, files, moved[..n], x);
    }
  }

  /** Rolling back undoes everything for a file, exactly unless it has an absolute
      name and was copied: then the copy stays. */
  lemma RolledBack(root: string, files: Files, names: seq<string>, p: Progress, m: nat, f: string)
    requires Apart(root, names) && m <= |names| && Shape(root, files, names, p, m) && f in names[..m]
    ensures var r := RenameBack(root, p.files - Lives(root, p.copied), p.moved);
            if f in p.copied && Absolute(f) then Get(r, Source(root, f)) != Get(files, Source(root, f))
            else forall x :: x in Places(root, f) ==> Get(r, x) == Get(files, x)
  {
    OwnPlaces(root, f);
    assert Midway(root, files, p, f) && f in names;
    var cleared := p.files - Lives(root, p.copied);
    forall x | x in Places(root, f) && x != Live(root, f) ensures Get(cleared, x) == Get(p.files, x) {
      OnlyOwnLive(root, names, p.copied, f, x);
    }
    OnlyOwnLive(root, names, p.copied, f, Live(root, f));
    RenameBackEffect(root, cleared, p.moved, names, f);
  }

  lemma OnlyOwnLive(root: string, names: seq<string>, copied: seq<string>, f: string, x: string)
    requires Apart(root, names) && f in names && x in Places(root, f) && forall g :: g in copied ==> g in names
    ensures x in Lives(root, copied) <==> f in copied && x == Live(root, f)
  {
    forall g | g in copied && g != f ensures x != Live(root, g) {
      assert Places(root, f) !! Places(root, g);
    }
  }

  /** Some absolute name has a backup, and the copies get past it. */
  predicate CopiesAbsolute(root: string, files: Files, names: seq<string>, copies: seq<bool>)
    requires |names| == |copies|
  {
    exists j :: 0 <= j < |names| && Absolute(names[j]) && Stored(root, names[j]) in files
      && forall k :: 0 <= k <= j ==> !Blocked(root, files, names[k], copies[k])
  }

  /** All or nothing: a restore that fails leaves the file system exactly as it was,
      leftovers of earlier restores included, if and only if no file with an
      absolute name was copied before it failed. */
  lemma FailedRestoreExactly(root: string, files: Files, names: seq<string>, copies: seq<bool>)
    requires Apart(root, names) && |names| == |copies| && !Restore(root, files, names, copies).1
    ensures Restore(root, files, names, copies).0 == files <==> !CopiesAbsolute(root, files, names, copies)
  {
    var p, r := Forward(root, files, names, copies, |names|), Restore(root, files, names, copies).0;
    var m := ForwardShape(root, files, names, copies, |names|);
    if CopiesAbsolute(root, files, names, copies) {
      var j :| 0 <= j < |names| && Absolute(names[j]) && Stored(root, names[j]) in files
        && forall k :: 0 <= k <= j ==> !Blocked(root, files, names[k], copies[k]);
      assert j < m - 1 && Passed(root, files, names, copies, p, j) && names[j] in names[..m];
      RolledBack(root, files, names, p, m, names[j]);
    } else {
      NothingCopied(root, files, names, copies, p, m);
      forall x ensures Get(r, x) == Get(files, x) {
        if f :| f in names[..m] && x in Places(root, f) {
          RolledBack(root, files, names, p, m, f);
        } else {
          assert Outside(root, names[..m], x) && Outside(root, p.moved, x);
          RenameBackFrame(root, p.files - Lives(root, p.copied), p.moved, x);
          forall f | f in p.copied ensures x != Live(root, f) {}
        }
      }
      SameFiles(r, files);
    }
  }

  /** An absolute name is copied, the next copy fails: the first copy stays. */
  lemma FailedRestoreKeepsCopy(root: string, f: string, g: string, db: string, secrets: string)
    requires Apart(root, [g, f]) && !Absolute(f) && Absolute(g)
    ensures var files := map[Stored(root, f) := db, Stored(root, g) := secrets];
            Restore(root, files, [g, f], [true, false]) == (files[Source(root, g) := secrets], false)
  {
    var names, copies := [g, f], [true, false];
    var files: Files := map[Stored(root, f) := db, Stored(root, g) := secrets];
    assert f in names && g in names && Places(root, f) !! Places(root, g);
    OwnPlaces(root, f);
    OwnPlaces(root, g);
    var copied: Files := files[Source(root, g) := secrets];
    assert Forward(root, files, names, copies, 0) == Progress(files, [], [], true);
    assert Forward(root, files, names, copies, 1) == Progress(copied, [], [g], true);
    assert Forward(root, files, names, copies, 2) == Progress(copied, [], [g], false);
    assert Lives(root, [g]) == {Live(root, g)};
    assert copied - {Live(root, g)} == copied;
  }

  /** Otherwise no absolute name is among the copied ones. */
  lemma NothingCopied(root: string, files: Files, names: seq<string>, copies: seq<bool>, p: Progress, m: nat)
    requires |names| == |copies| && 0 < m <= |names| && Shape(root, files, names, p, m)
    requires forall k :: 0 <= k < m - 1 ==> Passed(root, files, names, copies, p, k)
    requires names[m - 1] !in p.copied && !CopiesAbsolute(root, files, names, copies)
    ensures forall f :: f in p.copied ==> !Absolute(f)
  {
    forall f | f in p.copied ensures !Absolute(f) {
      var j := CopiedAt(root, files, names, p, m, f);
      if Absolute(f) {
        CopiedAbsolute(root, files, names, copies, p, j);
      }
    }
  }

  lemma CopiedAt(root: string, files: Files, names: seq<string>, p: Progress, m: nat, f: string) returns (j: nat)
    requires 0 < m <= |names| && Shape(root, files, names, p, m) && names[m - 1] !in p.copied && f in p.copied
    ensures j < m - 1 && names[j] == f && Stored(root, f) in files
  {
    assert f in names[..m] && Midway(root, files, p, f);
    j :| 0 <= j < m && names[j] == f;
  }

  lemma CopiedAbsolute(root: string, files: Files, names: seq<string>, copies: seq<bool>, p: Progress, j: nat)
    requires j < |names| == |copies| && Absolute(names[j]) && Stored(root, names[j]) in files
    requires forall k :: 0 <= k <= j ==> Passed(root, files, names, copies, p, k)
    ensures CopiesAbsolute(root, files, names, copies)
  {
    forall k | 0 <= k <= j ensures !Blocked(root, files, names[k], copies[k]) {
      assert Passed(root, files, names, copies, p, k);
    }
  }

  // --------------------------------------------------- a successful restore

  /** What a successful restore leaves of one name. */
  ghost predicate Restored(root: string, files: Files, after: Files, f: string) {
    && Get(after, Live(root, f))
       == (if Stored(root, f) in files && !Absolute(f) then Get(files, Stored(root, f))
           else if Shielded(root, files, f) then Get(files, Live(root, f)) else None)
    && Get(after, Aside(root, f)) == Get(files, Aside(root, f))
    && Get(after, Stored(root, f)) == Get(files, Stored(root, f))
    && (Absolute(f) ==>
          Get(after, Source(root, f))
          == Get(files, if Stored(root, f) in files then Stored(root, f) else Source(root, f)))
  }

  /** A restore that succeeds makes each file with a relative name its backup, absent
      if there is none, unless a leftover aside file kept the old one from being
      moved. One with an absolute name is gone, unless it was kept so; its backup
      goes to a place of its own. Aside files and backups are as before, and
      nothing else is touched. */
  lemma SuccessfulRestore(root: string, files: Files, names: seq<string>, copies: seq<bool>)
    requires Apart(root, names) && |names| == |copies| && Restore(root, files, names, copies).1
    ensures var r := Restore(root, files, names, copies).0;
            && (forall f :: f in names ==> Restored(root, files, r, f))
            && (forall x :: Outside(root, names, x) ==> Get(r, x) == Get(files, x))
  {
    var p, r := Forward(root, files, names, copies, |names|), Restore(root, files, names, copies).0;
    var m := ForwardShape(root, files, names, copies, |names|);
    assert names[..|names|] == names;
    forall f | f in names ensures Restored(root, files, r, f) {
      var k :| 0 <= k < |names| && names[k] == f;
      assert Passed(root, files, names, copies, p, k);
      RestoredOne(root, files, names, p, f);
    }
    forall x | Outside(root, names, x) ensures Get(r, x) == Get(files, x) {
      OutsideAsides(root, names, p.moved, x);
    }
  }

  lemma OutsideAsides(root: string, names: seq<string>, moved: seq<string>, x: string)
    requires Outside(root, names, x) && forall g :: g in moved ==> g in names
    ensures x !in Asides(root, moved)
  {
    forall g | g in moved ensures x != Aside(root, g) { assert x !in Places(root, g); }
  }

  lemma RestoredOne(root: string, files: Files, names: seq<string>, p: Progress, f: string)
    requires Apart(root, names) && f in names && Midway(root, files, p, f)
    requires Stored(root, f) in files ==> f in p.copied
    requires forall g :: g in p.moved ==> g in names
    ensures Restored(root, files, p.files - Asides(root, p.moved), f)
  {
    OwnPlaces(root, f);
    forall x | x in Places(root, f) ensures x in Asides(root, p.moved) <==> f in p.moved && x == Aside(root, f) {
      forall g | g in p.moved && g != f ensures x != Aside(root, g) {
        assert Places(root, f) !! Places(root, g);
      }
    }
  }

  /** So the named files are exactly their backups, if and only if every file without
      a backup had no leftover aside file next to it, and every absolute name with
      one had, and kept just that content. */
  lemma RestoreMatchesBackupExactly(root: string, files: Files, names: seq<string>, copies: seq<bool>)
    requires Apart(root, names) && |names| == |copies| && Restore(root, files, names, copies).1
    ensures (forall f :: f in names ==>
               Get(Restore(root, files, names, copies).0, Live(root, f)) == Get(files, Stored(root, f)))
       <==> (forall f :: f in names ==>
               if Stored(root, f) !in files then !Shielded(root, files, f)
               else Absolute(f) ==> Shielded(root, files, f) && files[Live(root, f)] == files[Stored(root, f)])
  {
    SuccessfulRestore(root, files, names, copies);
    var r := Restore(root, files, names, copies).0;
    forall f | f in names
      ensures Get(r, Live(root, f)) == Get(files, Stored(root, f)) <==>
              if Stored(root, f) !in files then !Shielded(root, files, f)
              else Absolute(f) ==> Shielded(root, files, f) && files[Live(root, f)] == files[Stored(root, f)]
    {
      assert Restored(root, files, r, f);
    }
  }

  /** A restore that is cut off leaves the old file aside. The next one, from a backup
      without the file, reports success and keeps the restored file. */
  lemma InterruptedRestoreShieldsFile(root: string, name: string, old_: string, restored: string)
    requires root != "" && !Absolute(name)
    ensures var (live, aside, stored) := (Live(root, name), Aside(root, name), Stored(root, name));
            var cut := Forward(root, map[live := old_, stored := restored], [name], [true], 1).files;
            var left := cut - {stored};
            && cut == map[live := restored, aside := old_, stored := restored]
            && Restore(root, left, [name], [true]) == (left, true) && live in left
  {
    OwnPlaces(root, name);
    var live, aside, stored := Live(root, name), Aside(root, name), Stored(root, name);
    var first: Files := map[live := old_, stored := restored];
    var moved := MoveAside(root, Progress(first, [], [], true), name);
    assert moved.files == map[aside := old_, stored := restored];
    var names, copies := [name], [true];
    assert Forward(root, first, names, copies, 0) == Progress(first, [], [], true);
    var cut := Forward(root, first, names, copies, 1).files;
    assert cut == map[live := restored, aside := old_, stored := restored];
    var left := cut - {stored};
    assert Forward(root, left, names, copies, 0) == Progress(left, [], [], true);
    assert Forward(root, left, names, copies, 1) == Progress(left, [], [], true);
    assert left - Asides(root, []) == left;
  }

  // ------------------------------------------------------------ backing up

  /** createStorageFileTree: missing files are created empty, up to the first that
      cannot be created. They are looked for by one path and created by the other. */
  function FileTree(root: string, files: Files, names: seq<string>, creates: seq<bool>): (Files, bool)
    requires |names| == |creates|
  {
    if names == [] then (files, true)
    else
      var n := |names| - 1;
      var (before, ok) := FileTree(root, files, names[..n], creates[..n]);
      if !ok then (before, false) else CreateOne(root, before, names[n], creates[n])
  }

  function CreateOne(root: string, files: Files, f: string, createOk: bool): (Files, bool) {
    if Live(root, f) in files then (files, true)
    else if createOk then (files[Source(root, f) := ""], true)
    else (files, false)
  }

  /** eraseBackupDir: the files right in the backup directory go. */
  function Erased(root: string, files: Files): Files {
    map x | x in files && !InBackupDir(root, x) :: files[x]
  }

  /** No file right in the backup directory is left, and every other file is as it was. */
  lemma ErasedExactly(root: string, files: Files, x: string)
    ensures Get(Erased(root, files), x) == if InBackupDir(root, x) then None else Get(files, x)
  {
  }

  /** One file of copyToBackupDir: it is removed from the backup directory, then
      copied, if it is there to be copied. */
  function CopyOne(root: string, files: Files, f: string, copyOk: bool): (Files, bool) {
    var cleared := files - {Cleared(root, f)};
    if Source(root, f) !in cleared then (cleared, true)
    else if copyOk && Stored(root, f) !in cleared
    then (cleared[Stored(root, f) := cleared[Source(root, f)]], true)
    else (cleared, false)
  }

  /** copyToBackupDir; it stops at a failed copy. */
  function CopyToBackup(root: string, files: Files, names: seq<string>, copies: seq<bool>): (Files, bool)
    requires |names| == |copies|
  {
    if names == [] then (files, true)
    else
      var n := |names| - 1;
      var (before, ok) := CopyToBackup(root, files, names[..n], copies[..n]);
      if !ok then (before, false) else CopyOne(root, before, names[n], copies[n])
  }

  /** What the file tree has of one name. */
  ghost predicate InTree(root: string, files: Files, tree: Files, f: string) {
    && Get(tree, Live(root, f))
       == (if Live(root, f) in files || Absolute(f) then Get(files, Live(root, f)) else Some(""))
    && (Absolute(f) ==>
          Get(tree, Source(root, f)) == if Live(root, f) in files then Get(files, Source(root, f)) else Some(""))
    && Get(tree, Aside(root, f)) == Get(files, Aside(root, f))
    && Get(tree, Stored(root, f)) == Get(files, Stored(root, f))
  }

  lemma CreateOneEffect(root: string, files: Files, f: string, createOk: bool)
    requires root != "" && Aside(root, f) != Source(root, f) && CreateOne(root, files, f, createOk).1
    ensures var tree := CreateOne(root, files, f, createOk).0;
            && InTree(root, files, tree, f)
            && (forall x :: x !in Places(root, f) ==> Get(tree, x) == Get(files, x))
  {
    OwnPlaces(root, f);
  }

  /** What is there stays; a missing file is created empty, but one with an absolute
      name not where it is missing; nothing else changes. */
  lemma {:induction false} FileTreeEffect(root: string, files: Files, names: seq<string>, creates: seq<bool>, n: nat)
    requires Apart(root, names) && n <= |names| == |creates| && FileTree(root, files, names[..n], creates[..n]).1
    ensures var tree := FileTree(root, files, names[..n], creates[..n]).0;
            && (forall f :: f in names[..n] ==> InTree(root, files, tree, f))
            && (forall x :: Outside(root, names[..n], x) ==> Get(tree, x) == Get(files, x))
  {
    if n > 0 {
      var k := n - 1;
      NextIsApart(root, names, k);
      assert names[..n][..k] == names[..k] && creates[..n][..k] == creates[..k];
      FileTreeEffect(root, files, names, creates, k);
      var before := FileTree(root, files, names[..k], creates[..k]).0;
      var tree := FileTree(root, files, names[..n], creates[..n]).0;
      var f := names[k];
      assert f in names;
      forall x | x in Places(root, f) ensures Get(before, x) == Get(files, x) {}
      CreateOneEffect(root, before, f, creates[k]);
      SameInTree(root, before, files, tree, tree, f);
      forall g | g in names[..k] ensures InTree(root, files, tree, g) {
        assert InTree(root, files, before, g);
        SameInTree(root, files, files, before, tree, g);
      }
    }
  }

  /** The file tree is made exactly if every missing file can be created. */
  lemma {:induction false} FileTreeSucceedsExactly(root: string, files: Files, names: seq<string>, creates: seq<bool>,
                                                   n: nat)
    requires Apart(root, names) && n <= |names| == |creates|
    ensures FileTree(root, files, names[..n], creates[..n]).1 <==>
            forall k :: 0 <= k < n ==> Live(root, names[k]) in files || creates[k]
  {
    if n > 0 {
      var k := n - 1;
      NextIsApart(root, names, k);
      assert names[..n][..k] == names[..k] && creates[..n][..k] == creates[..k];
      FileTreeSucceedsExactly(root, files, names, creates, k);
      if FileTree(root, files, names[..k], creates[..k]).1 {
        FileTreeEffect(root, files, names, creates, k);
        var before := FileTree(root, files, names[..k], creates[..k]).0;
        assert Get(before, Live(root, names[k])) == Get(files, Live(root, names[k]));
      }
    }
  }

  lemma SameInTree(root: string, files: Files, files': Files, tree: Files, tree': Files, f: string)
    requires InTree(root, files, tree, f)
    requires forall x :: x in Places(root, f) ==> Get(files', x) == Get(files, x) && Get(tree', x) == Get(tree, x)
    ensures InTree(root, files', tree', f)
  {
  }

  /** What the backup has of one name, and what it leaves of it. */
  ghost predicate InBackup(root: string, files: Files, after: Files, f: string) {
    && Get(after, Aside(root, f)) == Get(files, Aside(root, f))
    && Get(after, Source(root, f)) == Get(files, Source(root, f))
    && (if Absolute(f) then
          && Get(after, Live(root, f)) == None
          && Get(after, Stored(root, f)) == Get(files, if Source(root, f) in files then Source(root, f) else Stored(root, f))
        else Get(after, Stored(root, f)) == Get(files, Live(root, f)))
  }

  lemma CopyOneEffect(root: string, files: Files, f: string, copyOk: bool)
    requires root != "" && Aside(root, f) != Source(root, f) && CopyOne(root, files, f, copyOk).1
    ensures var after := CopyOne(root, files, f, copyOk).0;
            && InBackup(root, files, after, f)
            && (forall x :: x !in Places(root, f) ==> Get(after, x) == Get(files, x))
  {
    OwnPlaces(root, f);
  }

  /** A backup that succeeds makes the backup of each relative name the file in the
      storage directory. The file of an absolute name is removed instead, and what
      is copied is whatever lies at the joined path, usually nothing. */
  lemma {:induction false} CopyToBackupEffect(root: string, files: Files, names: seq<string>, copies: seq<bool>, n: nat)
    requires Apart(root, names) && n <= |names| == |copies| && CopyToBackup(root, files, names[..n], copies[..n]).1
    ensures var after := CopyToBackup(root, files, names[..n], copies[..n]).0;
            && (forall f :: f in names[..n] ==> InBackup(root, files, after, f))
            && (forall x :: Outside(root, names[..n], x) ==> Get(after, x) == Get(files, x))
  {
    if n > 0 {
      var k := n - 1;
      NextIsApart(root, names, k);
      assert names[..n][..k] == names[..k] && copies[..n][..k] == copies[..k];
      CopyToBackupEffect(root, files, names, copies, k);
      var before := CopyToBackup(root, files, names[..k], copies[..k]).0;
      var after := CopyToBackup(root, files, names[..n], copies[..n]).0;
      var f := names[k];
      assert f in names;
      forall x | x in Places(root, f) ensures Get(before, x) == Get(files, x) {}
      CopyOneEffect(root, before, f, copies[k]);
      SameInBackup(root, before, files, after, after, f);
      forall g | g in names[..k] ensures InBackup(root, files, after, g) {
        assert InBackup(root, files, before, g);
        SameInBackup(root, files, files, before, after, g);
      }
    }
  }

  /** Whether one file's turn in a backup works: there is nothing to copy, or the copy
      works and its place is free, which for a relative name it is. */
  predicate CanBackUp(root: string, files: Files, f: string, copyOk: bool) {
    Source(root, f) !in files || (copyOk && (Absolute(f) ==> Stored(root, f) !in files))
  }

  lemma {:induction false} BackupStands(root: string, files: Files, names: seq<string>, copies: seq<bool>, n: nat)
    requires Apart(root, names) && n <= |names| == |copies|
    ensures CopyToBackup(root, files, names[..n], copies[..n]).1 <==>
            forall k :: 0 <= k < n ==> CanBackUp(root, files, names[k], copies[k])
  {
    if n > 0 {
      var k := n - 1;
      NextIsApart(root, names, k);
      assert names[..n][..k] == names[..k] && copies[..n][..k] == copies[..k];
      BackupStands(root, files, names, copies, k);
      if CopyToBackup(root, files, names[..k], copies[..k]).1 {
        CopyToBackupEffect(root, files, names, copies, k);
        var before, f := CopyToBackup(root, files, names[..k], copies[..k]).0, names[k];
        forall x | x in Places(root, f) ensures Get(before, x) == Get(files, x) {}
        assert f in names;
        CopyOneStands(root, before, files, f, copies[k]);
      }
    }
  }

  lemma CopyOneStands(root: string, before: Files, files: Files, f: string, copyOk: bool)
    requires root != "" && forall x :: x in Places(root, f) ==> Get(before, x) == Get(files, x)
    ensures CopyOne(root, before, f, copyOk).1 <==> CanBackUp(root, files, f, copyOk)
  {
    OwnPlaces(root, f);
    assert Get(before, Source(root, f)) == Get(files, Source(root, f));
    assert Get(before, Stored(root, f)) == Get(files, Stored(root, f));
  }

  /** A backup succeeds exactly if every file's turn works. */
  lemma BackupSucceedsExactly(root: string, files: Files, names: seq<string>, copies: seq<bool>)
    requires Apart(root, names) && |names| == |copies|
    ensures CopyToBackup(root, files, names, copies).1 <==>
            forall k :: 0 <= k < |names| ==> CanBackUp(root, files, names[k], copies[k])
  {
    assert names[..|names|] == names && copies[..|names|] == copies;
    BackupStands(root, files, names, copies, |names|);
  }

  lemma SameInBackup(root: string, files: Files, files': Files, after: Files, after': Files, f: string)
    requires InBackup(root, files, after, f)
    requires forall x :: x in Places(root, f) ==> Get(files', x) == Get(files, x) && Get(after', x) == Get(after, x)
    ensures InBackup(root, files', after', f)
  {
  }

  /** The file system after backupStarts. */
  function BackedUp(root: string, files: Files, names: seq<string>, creates: seq<bool>, copies: seq<bool>)
    : (Files, bool)
    requires |names| == |creates| == |copies|
  {
    var (tree, made) := FileTree(root, files, names, creates);
    if made then CopyToBackup(root, Erased(root, tree), names, copies) else (tree, false)
  }

  /** The file as it was, a missing one as an empty file. */
  predicate Recovered(root: string, files: Files, now: Files, f: string) {
    Get(now, Live(root, f)) == Some(if Live(root, f) in files then files[Live(root, f)] else "")
  }

  lemma BackedUpEffect(root: string, files: Files, names: seq<string>, creates: seq<bool>, copies: seq<bool>, f: string)
    requires Apart(root, names) && |names| == |creates| == |copies| && f in names
    requires BackedUp(root, files, names, creates, copies).1
    ensures var after := BackedUp(root, files, names, creates, copies).0;
            if Absolute(f) then Live(root, f) !in after
            else Get(after, Stored(root, f)) == Some(if Live(root, f) in files then files[Live(root, f)] else "")
  {
    var tree := FileTree(root, files, names, creates).0;
    assert names[..|names|] == names && creates[..|names|] == creates && copies[..|names|] == copies;
    FileTreeEffect(root, files, names, creates, |names|);
    CopyToBackupEffect(root, Erased(root, tree), names, copies, |names|);
    assert InTree(root, files, tree, f);
    assert InBackup(root, Erased(root, tree), BackedUp(root, files, names, creates, copies).0, f);
    assert Get(Erased(root, tree), Live(root, f)) == Get(tree, Live(root, f));
  }

  /** Backup then restore, exactly. Whatever became of the storage in between, as long
      as the backups were left alone: a backup and a restore that both succeed give
      every named file as it was at the backup, missing ones as empty files, if and
      only if each absolute name was kept as it was by a leftover aside file. */
  lemma BackupThenRestoreExactly(root: string, files: Files, later: Files, names: seq<string>, creates: seq<bool>,
                                 copies: seq<bool>, copies': seq<bool>)
    requires Apart(root, names) && |names| == |creates| == |copies| == |copies'|
    requires BackedUp(root, files, names, creates, copies).1
    requires forall f :: f in names ==>
               Get(later, Stored(root, f)) == Get(BackedUp(root, files, names, creates, copies).0, Stored(root, f))
    requires Restore(root, later, names, copies').1
    ensures var r := Restore(root, later, names, copies').0;
            && (forall f :: f in names && !Absolute(f) ==> Recovered(root, files, r, f))
            && (forall x :: Outside(root, names, x) ==> Get(r, x) == Get(later, x))
            && ((forall f :: f in names ==> Recovered(root, files, r, f))
                <==> (forall f :: f in names && Absolute(f) ==>
                        Shielded(root, later, f) && Recovered(root, files, later, f)))
  {
    SuccessfulRestore(root, later, names, copies');
    var r := Restore(root, later, names, copies').0;
    forall f | f in names
      ensures Recovered(root, files, r, f) <==>
              (Absolute(f) ==> Shielded(root, later, f) && Recovered(root, files, later, f))
    {
      BackedUpEffect(root, files, names, creates, copies, f);
      assert Restored(root, later, r, f);
    }
  }

  /** With no leftover aside files, as after a backup, that means: if and only if no
      named file has an absolute name. */
  lemma BackupThenRestore(root: string, files: Files, names: seq<string>, creates: seq<bool>,
                          copies: seq<bool>, copies': seq<bool>)
    requires Apart(root, names) && |names| == |creates| == |copies| == |copies'|
    requires BackedUp(root, files, names, creates, copies).1
    requires Restore(root, BackedUp(root, files, names, creates, copies).0, names, copies').1
    ensures var r := Restore(root, BackedUp(root, files, names, creates, copies).0, names, copies').0;
            (forall f :: f in names ==> Recovered(root, files, r, f)) <==> (forall f :: f in names ==> !Absolute(f))
  {
    var after := BackedUp(root, files, names, creates, copies).0;
    BackupThenRestoreExactly(root, files, after, names, creates, copies, copies');
    forall f | f in names && Absolute(f) ensures !Shielded(root, after, f) {
      BackedUpEffect(root, files, names, creates, copies, f);
    }
  }

  // ---------------------------------------------------- the daemon's own list

  /** The database, and the container as the crypto manager names it: by a full path. */
  function DaemonFiles(root: string): seq<string> {
    ["signon.db", root + "/signonfs"]
  }

  lemma DaemonFilesAreApart(root: string)
    requires Absolute(root)
    ensures Apart(root, DaemonFiles(root)) && Absolute(root + "/signonfs")
  {
    var f, g := "signon.db", root + "/signonfs";
    LastChars(root, f, g);
    forall x | x in Places(root, f) ensures x !in Places(root, g) {
      assert |Aside(root, f)| == |root| + 14 && |Aside(root, g)| == |root| + 13;
    }
    NotInBackupDir(root, "/signon.db");
    NotInBackupDir(root, "/signonfs");
    assert Live(root, f) == root + "/signon.db";
  }

  lemma NotInBackupDir(root: string, tail: string)
    requires |tail| >= 2 && tail[1] != 'b'
    ensures !InBackupDir(root, root + tail)
  {
    var x, dir := root + tail, root + BACKUP_DIR + "/";
    assert dir[|root| + 1] == 'b' && x[|root| + 1] == tail[1];
    if |x| > |dir| {
      assert x[..|dir|][|root| + 1] == x[|root| + 1];
    }
  }

  function Last(s: string): char
    requires s != ""
  {
    s[|s| - 1]
  }

  /** Told apart by their ends. */
  lemma LastChars(root: string, f: string, g: string)
    requires Absolute(root) && f == "signon.db" && g == root + "/signonfs"
    ensures Absolute(g) && !Absolute(f)
    ensures Last(Live(root, f)) == 'b' && Last(Stored(root, f)) == 'b' && Last(Aside(root, f)) == 'k'
    ensures Source(root, f) == Live(root, f) && Cleared(root, f) == Stored(root, f)
    ensures Last(Live(root, g)) == 's' && Last(Stored(root, g)) == 's' && Last(Source(root, g)) == 's'
    ensures Last(Cleared(root, g)) == 's' && Last(Aside(root, g)) == 'k'
  {
    assert f + BAK == "signon.db.bak";
    assert g + BAK == root + "/signonfs.bak";
  }

  /** A backup of a relative and an absolute name, both there: it reports success, the
      file of the absolute name is gone, and no copy of it was made. */
  lemma AbsoluteNameIsLost(root: string, f: string, g: string, db: string, secrets: string)
    requires Apart(root, [f, g]) && !Absolute(f) && Absolute(g)
    ensures BackedUp(root, map[Live(root, f) := db, Live(root, g) := secrets], [f, g], [true, true], [true, true])
         == (map[Live(root, f) := db, Stored(root, f) := db], true)
  {
    var files: Files := map[Live(root, f) := db, Live(root, g) := secrets];
    var names, yes := [f, g], [true, true];
    assert f in names && g in names && Places(root, f) !! Places(root, g);
    OwnPlaces(root, f);
    OwnPlaces(root, g);
    assert names[..1] == [f] && yes[..1] == [true] && names[..1][..0] == [] && yes[..1][..0] == [];
    assert FileTree(root, files, names[..1], yes[..1]) == (files, true);
    assert FileTree(root, files, names, yes) == (files, true);
    assert Erased(root, files) == files;
    FirstCopied(root, f, g, db, secrets);
    assert CopyToBackup(root, files, names[..1], yes[..1]) == CopyOne(root, files, f, true);
  }

  lemma FirstCopied(root: string, f: string, g: string, db: string, secrets: string)
    requires root != "" && Places(root, f) !! Places(root, g) && !Absolute(f) && Absolute(g)
    ensures var files := map[Live(root, f) := db, Live(root, g) := secrets];
            var both := map[Live(root, f) := db, Live(root, g) := secrets, Stored(root, f) := db];
            && CopyOne(root, files, f, true) == (both, true)
            && CopyOne(root, both, g, true) == (map[Live(root, f) := db, Stored(root, f) := db], true)
  {
    OwnPlaces(root, f);
    OwnPlaces(root, g);
    var a, b, c, d := Live(root, f), Stored(root, f), Live(root, g), Source(root, g);
    assert {a, b} <= Places(root, f) && {c, d} <= Places(root, g);
    assert a != b && a != c && a != d && b != c && b != d && c != d;
    var files: Files, both: Files := map[a := db, c := secrets], map[a := db, c := secrets, b := db];
    assert files - {b} == files && files[b := db] == both;
    assert both - {c} == map[a := db, b := db];
  }

  /** A restore of what such a backup leaves reports success too, and brings nothing
      back. */
  lemma NothingComesBack(root: string, f: string, g: string, db: string)
    requires Apart(root, [f, g]) && !Absolute(f) && Absolute(g)
    ensures var after := map[Live(root, f) := db, Stored(root, f) := db];
            Restore(root, after, [f, g], [true, true]) == (after, true)
  {
    var names, yes := [f, g], [true, true];
    var after: Files := map[Live(root, f) := db, Stored(root, f) := db];
    assert f in names && g in names && Places(root, f) !! Places(root, g);
    OwnPlaces(root, f);
    OwnPlaces(root, g);
    var moved: Files := map[Aside(root, f) := db, Stored(root, f) := db];
    var copied: Files := moved[Live(root, f) := db];
    assert MoveAside(root, Progress(after, [], [], true), f) == Progress(moved, [f], [], true);
    assert Live(root, g) !in copied && Stored(root, g) !in copied;
    assert Forward(root, after, names, yes, 0) == Progress(after, [], [], true);
    assert Forward(root, after, names, yes, 1) == Progress(copied, [f], [f], true);
    assert Forward(root, after, names, yes, 2) == Progress(copied, [f], [f], true);
    assert Asides(root, [f]) == {Aside(root, f)};
    assert copied - {Aside(root, f)} == after;
  }

  /** That is what becomes of the container. */
  lemma ContainerIsLost(root: string, db: string, secrets: string)
    requires Absolute(root)
    ensures var files := map[root + "/signon.db" := db, root + "/signonfs" := secrets];
            var after := map[root + "/signon.db" := db, root + "/backup/signon.db" := db];
            && BackedUp(root, files, DaemonFiles(root), [true, true], [true, true]) == (after, true)
            && Restore(root, after, DaemonFiles(root), [true, true]) == (after, true)
  {
    var f, g := "signon.db", root + "/signonfs";
    DaemonFilesAreApart(root);
    AbsoluteNameIsLost(root, f, g, db, secrets);
    NothingComesBack(root, f, g, db);
    assert Live(root, f) == root + "/signon.db" && Live(root, g) == root + "/signonfs";
    assert Stored(root, f) == root + "/backup/signon.db";
    assert DaemonFiles(root) == [f, g];
  }

  // ------------------------------------------------------------ the daemon

  class SignonDaemon {
    const storagePath: string
    var files: Files                 // the whole file system

    constructor (storagePath: string, files: Files)
      ensures this.storagePath == storagePath && this.files == files
    {
      this.storagePath, this.files := storagePath, files;
    }

    method EraseBackupDir()
      modifies this
      ensures files == Erased(storagePath, old(files))
    {
      var targetEntries := set x | x in files && InBackupDir(storagePath, x);
      while targetEntries != {}
        invariant targetEntries == set x | x in files && InBackupDir(storagePath, x)
        invariant Erased(storagePath, files) == Erased(storagePath, old(files))
        decreases targetEntries
      {
        var entry :| entry in targetEntries;
        files := files - {entry};
        targetEntries := targetEntries - {entry};
      }
      forall x | x in files ensures !InBackupDir(storagePath, x) {
        assert x in targetEntries <==> InBackupDir(storagePath, x);
      }
      assert files == Erased(storagePath, files);
    }

    /** creates stands for the outcome of each creation. */
    method CreateStorageFileTree(backupFiles: seq<string>, creates: seq<bool>) returns (ok: bool)
      requires |backupFiles| == |creates|
      modifies this
      ensures (files, ok) == FileTree(storagePath, old(files), backupFiles, creates)
    {
      for i := 0 to |backupFiles|
        invariant (files, true) == FileTree(storagePath, old(files), backupFiles[..i], creates[..i])
      {
        assert backupFiles[..i + 1][..i] == backupFiles[..i] && creates[..i + 1][..i] == creates[..i];
        if FilePath(storagePath, backupFiles[i]) in files { continue; }
        if !creates[i] {
          FileTreeStops(storagePath, old(files), backupFiles, creates, i + 1);
          return false;
        }
        files := files[Joined(storagePath, backupFiles[i]) := ""];
      }
      assert backupFiles[..|backupFiles|] == backupFiles && creates[..|creates|] == creates;
      return true;
    }

    /** copies stands for the outcome of each copy. */
    method CopyToBackupDir(fileNames: seq<string>, copies: seq<bool>) returns (ok: bool)
      requires |fileNames| == |copies|
      modifies this
      ensures (files, ok) == CopyToBackup(storagePath, old(files), fileNames, copies)
    {
      var backupRoot := storagePath + BACKUP_DIR;
      for i := 0 to |fileNames|
        invariant (files, true) == CopyToBackup(storagePath, old(files), fileNames[..i], copies[..i])
      {
        assert fileNames[..i + 1][..i] == fileNames[..i] && copies[..i + 1][..i] == copies[..i];
        var fileName := fileNames[i];
        ghost var before := files;
        if FilePath(backupRoot, fileName) in files {
          files := files - {FilePath(backupRoot, fileName)};
        }
        assert files == before - {Cleared(storagePath, fileName)};
        var source, destination := Joined(storagePath, fileName), Joined(backupRoot, fileName);
        if source !in files { continue; }
        if !(copies[i] && destination !in files) {
          StaysFailed(storagePath, old(files), fileNames, copies, i + 1);
          return false;
        }
        files := files[destination := files[source]];
      }
      assert fileNames[..|fileNames|] == fileNames && copies[..|copies|] == copies;
      return true;
    }

    /** Moves each file aside and copies its backup in, up to the first failed copy. */
    method MoveAndCopy(fileNames: seq<string>, copies: seq<bool>)
      returns (ok: bool, movedFiles: seq<string>, copiedFiles: seq<string>)
      requires |fileNames| == |copies|
      modifies this
      ensures Progress(files, movedFiles, copiedFiles, ok)
           == Forward(storagePath, old(files), fileNames, copies, |fileNames|)
    {
      ok := true;
      movedFiles, copiedFiles := [], [];
      var i := 0;
      while i < |fileNames| && ok
        invariant 0 <= i <= |fileNames|
        invariant Progress(files, movedFiles, copiedFiles, ok)
               == Forward(storagePath, old(files), fileNames, copies, i)
      {
        var fileName := fileNames[i];
        ghost var p := Progress(files, movedFiles, copiedFiles, ok);
        var live, aside := FilePath(storagePath, fileName), FilePath(storagePath, fileName + BAK);
        if live in files && aside !in files {
          files := Rename(files, live, aside);
          movedFiles := movedFiles + [fileName];
        }
        assert Progress(files, movedFiles, copiedFiles, ok) == MoveAside(storagePath, p, fileName);
        var source, destination := Joined(storagePath + BACKUP_DIR, fileName), Joined(storagePath, fileName);
        if source in files {
          ok := copies[i] && destination !in files;
          if ok {
            files := files[destination := files[source]];
            copiedFiles := copiedFiles + [fileName];
          }
        }
        assert Progress(files, movedFiles, copiedFiles, ok) == RestoreOne(storagePath, p, fileName, copies[i]);
        i := i + 1;
      }
      StopsAtFailure(storagePath, old(files), fileNames, copies, i);
    }

    method RollBack(movedFiles: seq<string>, copiedFiles: seq<string>)
      modifies this
      ensures files == RenameBack(storagePath, old(files) - Lives(storagePath, copiedFiles), movedFiles)
    {
      for j := 0 to |copiedFiles|
        invariant files == old(files) - Lives(storagePath, copiedFiles[..j])
      {
        files := files - {FilePath(storagePath, copiedFiles[j])};
        assert copiedFiles[..j + 1] == copiedFiles[..j] + [copiedFiles[j]];
        assert Lives(storagePath, copiedFiles[..j + 1])
            == Lives(storagePath, copiedFiles[..j]) + {Live(storagePath, copiedFiles[j])};
      }
      assert copiedFiles[..|copiedFiles|] == copiedFiles;
      var cleared := files;
      for j := 0 to |movedFiles|
        invariant files == RenameBack(storagePath, cleared, movedFiles[..j])
      {
        assert movedFiles[..j + 1][..j] == movedFiles[..j];
        files := RenameBackOne(storagePath, files, movedFiles[j]);
      }
      assert movedFiles[..|movedFiles|] == movedFiles;
    }

    method RemoveAside(movedFiles: seq<string>)
      modifies this
      ensures files == old(files) - Asides(storagePath, movedFiles)
    {
      for j := 0 to |movedFiles|
        invariant files == old(files) - Asides(storagePath, movedFiles[..j])
      {
        files := files - {FilePath(storagePath, movedFiles[j] + BAK)};
        assert movedFiles[..j + 1] == movedFiles[..j] + [movedFiles[j]];
        assert Asides(storagePath, movedFiles[..j + 1])
            == Asides(storagePath, movedFiles[..j]) + {Aside(storagePath, movedFiles[j])};
      }
      assert movedFiles[..|movedFiles|] == movedFiles;
    }

    method CopyFromBackupDir(fileNames: seq<string>, copies: seq<bool>) returns (ok: bool)
      requires |fileNames| == |copies|
      modifies this
      ensures (files, ok) == Restore(storagePath, old(files), fileNames, copies)
      ensures Apart(storagePath, fileNames) && !ok ==>
                (files == old(files) <==> !CopiesAbsolute(storagePath, old(files), fileNames, copies))
    {
      var movedFiles, copiedFiles;
      ok, movedFiles, copiedFiles := MoveAndCopy(fileNames, copies);
      if !ok {
        RollBack(movedFiles, copiedFiles);
      } else {
        RemoveAside(movedFiles);
      }
      if Apart(storagePath, fileNames) && !ok {
        FailedRestoreExactly(storagePath, old(files), fileNames, copies);
      }
    }

    /** The file part of backupStarts. */
    method Backup(backupFiles: seq<string>, creates: seq<bool>, copies: seq<bool>) returns (ok: bool)
      requires |backupFiles| == |creates| == |copies|
      modifies this
      ensures (files, ok) == BackedUp(storagePath, old(files), backupFiles, creates, copies)
    {
      ok := CreateStorageFileTree(backupFiles, creates);
      if !ok { return false; }
      EraseBackupDir();
      ok := CopyToBackupDir(backupFiles, copies);
    }
  }

  lemma {:induction false} StopsAtFailure(root: string, files: Files, names: seq<string>, copies: seq<bool>, n: nat)
    requires n <= |names| == |copies|
    requires n == |names| || !Forward(root, files, names, copies, n).ok
    ensures Forward(root, files, names, copies, |names|) == Forward(root, files, names, copies, n)
    decreases |names| - n
  {
    if n < |names| {
      StopsAtFailure(root, files, names, copies, n + 1);
    }
  }

  lemma {:induction false} FileTreeStops(root: string, files: Files, names: seq<string>, creates: seq<bool>, n: nat)
    requires n <= |names| == |creates| && !FileTree(root, files, names[..n], creates[..n]).1
    ensures FileTree(root, files, names, creates) == FileTree(root, files, names[..n], creates[..n])
    decreases |names| - n
  {
    if n < |names| {
      assert names[..n + 1][..n] == names[..n] && creates[..n + 1][..n] == creates[..n];
      FileTreeStops(root, files, names, creates, n + 1);
    } else {
      assert names[..n] == names && creates[..n] == creates;
    }
  }

  lemma {:induction false} StaysFailed(root: string, files: Files, names: seq<string>, copies: seq<bool>, n: nat)
    requires n <= |names| == |copies| && !CopyToBackup(root, files, names[..n], copies[..n]).1
    ensures CopyToBackup(root, files, names, copies) == CopyToBackup(root, files, names[..n], copies[..n])
    decreases |names| - n
  {
    if n < |names| {
      assert names[..n + 1][..n] == names[..n] && copies[..n + 1][..n] == copies[..n];
      StaysFailed(root, files, names, copies, n + 1);
    } else {
      assert names[..n] == names && copies[..n] == copies;
    }
  }
}
