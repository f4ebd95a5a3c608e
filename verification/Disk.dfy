/**
 * Files of a database directory. The logical content of a database is its main file with the
 * frames of its write-ahead log applied. The disk records every state it goes through, so that
 * a claim about the recorded states is a claim about a crash at any point.
 */
module Disk {
  import opened Wrappers
  import opened Sidecar

  /** Pages of a database; what a page holds does not matter here. */
  type Image = map<nat, int>
  datatype Frame = Frame(page: nat, data: int)

  datatype File = Main(image: Image) | Log(frames: seq<Frame>) | Text(content: string)
  type Files = map<string, File>

  /** SQLite's checks and SHA-256, about which nothing else is assumed. */
  datatype Environment = Environment(sound: Image -> bool, sha: File -> seq<byte>) {
    ghost predicate Sha256() { forall f :: |sha(f)| == 32 }
  }

  function Apply(image: Image, frames: seq<Frame>): Image {
    if frames == [] then image
    else
      var f := frames[|frames| - 1];
      Apply(image, frames[..|frames| - 1])[f.page := f.data]
  }

  function Wal(path: string): string { path + "-wal" }
  function Shm(path: string): string { path + "-shm" }

  /** The log that SQLite would replay; a file that is not a log is ignored. */
  function Frames(files: Files, path: string): seq<Frame> {
    if Wal(path) in files && files[Wal(path)].Log? then files[Wal(path)].frames else []
  }

  /** The content that opening the database shows. */
  function Logical(files: Files, path: string): Option<Image> {
    if path in files && files[path].Main? then Some(Apply(files[path].image, Frames(files, path))) else None
  }

  /** `checkDatabaseFile`. */
  predicate ChecksOut(files: Files, env: Environment, path: string) {
    Logical(files, path).Some? && env.sound(Logical(files, path).value)
  }

  // ------------------------------------------------------- log and checkpoint

  function Pages(frames: seq<Frame>): set<nat> { set i | 0 <= i < |frames| :: frames[i].page }

  ghost predicate AgreeOff(a: Image, b: Image, s: set<nat>) {
    forall p: nat :: p !in s ==> (p in a <==> p in b) && (p in a ==> a[p] == b[p])
  }

  lemma {:induction false} ApplyForgets(a: Image, b: Image, frames: seq<Frame>, s: set<nat>)
    requires AgreeOff(a, b, s)
    ensures AgreeOff(Apply(a, frames), Apply(b, frames), s - Pages(frames))
  {
    if frames != [] {
      var init, f := frames[..|frames| - 1], frames[|frames| - 1];
      ApplyForgets(a, b, init, s);
      assert Pages(frames) == Pages(init) + {f.page} by {
        assert frames == init + [f];
        forall p | p in Pages(init) ensures p in Pages(frames) {
          var i :| 0 <= i < |init| && init[i].page == p;
          assert frames[i].page == p;
        }
      }
    }
  }

  lemma {:induction false} ApplyChangesPages(a: Image, frames: seq<Frame>)
    ensures AgreeOff(a, Apply(a, frames), Pages(frames))
  {
    if frames != [] {
      var init := frames[..|frames| - 1];
      ApplyChangesPages(a, init);
      assert frames[|frames| - 1].page in Pages(frames);
      forall p | p in Pages(init) ensures p in Pages(frames) {
        var i :| 0 <= i < |init| && init[i].page == p;
        assert frames[i].page == p;
      }
    }
  }

  /**
   * A checkpoint that has copied any part of the log into the main file has not changed the
   * logical content: replaying the whole log again gives the same pages.
   */
  lemma PartialCheckpointKeepsContent(image: Image, frames: seq<Frame>, n: nat)
    requires n <= |frames|
    ensures Apply(Apply(image, frames[..n]), frames) == Apply(image, frames)
  {
    var part := frames[..n];
    ApplyChangesPages(image, part);
    forall p | p in Pages(part) ensures p in Pages(frames) {
      var i :| 0 <= i < |part| && part[i].page == p;
      assert frames[i].page == p;
    }
    ApplyForgets(image, Apply(image, part), frames, Pages(part));
    assert Pages(part) - Pages(frames) == {};
    var x, y := Apply(image, frames), Apply(Apply(image, part), frames);
    assert AgreeOff(x, y, {});
    assert x.Keys == y.Keys by {
      forall p: nat ensures p in x <==> p in y {
        assert p !in {};
      }
    }
    assert x == y;
  }

  /** What the log last wrote to a page. */
  function LastData(frames: seq<Frame>, page: nat): int
    requires page in Pages(frames)
  {
    var init, f := frames[..|frames| - 1], frames[|frames| - 1];
    PagesStep(frames);
    if f.page == page then f.data else LastData(init, page)
  }

  lemma PagesStep(frames: seq<Frame>)
    requires frames != []
    ensures Pages(frames) == Pages(frames[..|frames| - 1]) + {frames[|frames| - 1].page}
  {
    var init, f := frames[..|frames| - 1], frames[|frames| - 1];
    assert frames == init + [f];
    forall p | p in Pages(init) ensures p in Pages(frames) {
      var i :| 0 <= i < |init| && init[i].page == p;
      assert frames[i].page == p;
    }
  }

  lemma {:induction false} ApplyAt(image: Image, frames: seq<Frame>, page: nat)
    ensures page in Pages(frames) ==> page in Apply(image, frames) && Apply(image, frames)[page] == LastData(frames, page)
    ensures page !in Pages(frames) ==> (page in Apply(image, frames) <==> page in image)
    ensures page !in Pages(frames) && page in image ==> Apply(image, frames)[page] == image[page]
  {
    if frames != [] {
      PagesStep(frames);
      ApplyAt(image, frames[..|frames| - 1], page);
    }
  }

  /** Replaying the log changes nothing in `image`. */
  ghost predicate Inert(image: Image, frames: seq<Frame>) {
    forall p :: p in Pages(frames) ==> p in image && image[p] == LastData(frames, p)
  }

  lemma InertIff(image: Image, frames: seq<Frame>)
    ensures Apply(image, frames) == image <==> Inert(image, frames)
  {
    forall p: nat ensures p in Pages(frames) ==> p in Apply(image, frames) && Apply(image, frames)[p] == LastData(frames, p) {
      ApplyAt(image, frames, p);
    }
    if Inert(image, frames) {
      var applied := Apply(image, frames);
      forall p: nat ensures (p in applied <==> p in image) && (p in image ==> applied[p] == image[p]) {
        ApplyAt(image, frames, p);
      }
      assert applied.Keys == image.Keys;
    }
  }

  /** One log makes the same of two images exactly when they agree on all pages that it does not write. */
  lemma SameReplayIff(a: Image, b: Image, frames: seq<Frame>)
    ensures Apply(a, frames) == Apply(b, frames) <==> AgreeOff(a, b, Pages(frames))
  {
    var x, y := Apply(a, frames), Apply(b, frames);
    forall p: nat
      ensures p in Pages(frames) ==> p in x && p in y && x[p] == y[p]
      ensures p !in Pages(frames) ==> (p in x <==> p in a) && (p in y <==> p in b)
      ensures p !in Pages(frames) && p in a ==> x[p] == a[p]
      ensures p !in Pages(frames) && p in b ==> y[p] == b[p]
    {
      ApplyAt(a, frames, p);
      ApplyAt(b, frames, p);
    }
    if AgreeOff(a, b, Pages(frames)) {
      assert forall p: nat :: p in x <==> p in y;
      assert x.Keys == y.Keys;
    }
  }

  // -------------------------------------------------------------------- disk

  /** `s` differs from `base` at most at the given paths. */
  ghost predicate ChangesOnly(s: Files, base: Files, paths: set<string>) {
    forall p :: p !in paths ==> (p in s <==> p in base) && (p in s ==> s[p] == base[p])
  }

  class Drive {
    var files: Files
    ghost var trail: seq<Files>  // every state so far, the current one last

    ghost predicate Recorded()
      reads this
    {
      trail != [] && trail[|trail| - 1] == files
    }

    constructor (files: Files)
      ensures Recorded() && this.files == files && trail == [files]
    {
      this.files := files;
      trail := [files];
    }

    method Put(path: string, file: File)
      requires Recorded()
      modifies this
      ensures Recorded() && files == old(files)[path := file] && trail == old(trail) + [files]
    {
      files := files[path := file];
      trail := trail + [files];
    }

    /** Removing a file that is not there changes nothing. */
    method Remove(path: string)
      requires Recorded()
      modifies this
      ensures Recorded() && files == old(files) - {path} && trail == old(trail) + [files]
    {
      files := files - {path};
      trail := trail + [files];
    }

    /** One atomic step. */
    method Rename(source: string, target: string)
      requires Recorded() && source in files && source != target
      modifies this
      ensures Recorded() && files == old(files)[target := old(files)[source]] - {source}
      ensures trail == old(trail) + [files]
    {
      files := files[target := files[source]] - {source};
      trail := trail + [files];
    }
  }

  // ---------------------------------------------------------- closing connections

  /** The files that SQLite keeps for a database. */
  function DatabaseFiles(path: string): set<string> { {path, Wal(path), Shm(path)} }

  lemma DatabaseFilesDiffer(path: string)
    ensures Wal(path) != path && Shm(path) != path && Wal(path) != Shm(path)
  {
    assert Wal(path)[|path| + 1] == 'w' && Shm(path)[|path| + 1] == 's';
    assert |Wal(path)| == |path| + 4 && |Shm(path)| == |path| + 4;
  }

  /**
   * What closing connections to the database at `path` can make of `a`: any part of the log may have
   * been copied into the main file, the sidecars may be gone, and the content is the same.
   */
  ghost predicate Closer(a: Files, b: Files, path: string) {
    && ChangesOnly(b, a, DatabaseFiles(path))
    && Logical(b, path) == Logical(a, path)
    && (path in a <==> path in b) && (path in a ==> (a[path].Main? <==> b[path].Main?))
    && (forall p :: p in {Wal(path), Shm(path)} && p in b ==> p in a && b[p] == a[p])
  }

  lemma CloserJoins(a: Files, b: Files, c: Files, path: string)
    requires Closer(a, b, path) && Closer(b, c, path)
    ensures Closer(a, c, path)
  {
  }

  lemma CloserFrames(a: Files, b: Files, path: string)
    requires Closer(a, b, path)
    ensures Frames(b, path) == Frames(a, path) || Frames(b, path) == []
  {
  }

  lemma CopiedIsCloser(a: Files, path: string, n: nat)
    requires path in a && a[path].Main? && n <= |Frames(a, path)|
    ensures Closer(a, a[path := Main(Apply(a[path].image, Frames(a, path)[..n]))], path)
  {
    DatabaseFilesDiffer(path);
    PartialCheckpointKeepsContent(a[path].image, Frames(a, path), n);
    assert Frames(a[path := Main(Apply(a[path].image, Frames(a, path)[..n]))], path) == Frames(a, path);
  }

  lemma TidiedIsCloser(a: Files, path: string)
    requires path in a && a[path].Main?
    ensures var b := a[path := Main(Apply(a[path].image, Frames(a, path)))];
      Closer(a, b - {Wal(path)}, path) && Closer(a, b - {Wal(path)} - {Shm(path)}, path)
  {
    DatabaseFilesDiffer(path);
    var b := a[path := Main(Apply(a[path].image, Frames(a, path)))];
    assert Frames(b - {Wal(path)}, path) == [] && Frames(b - {Wal(path)} - {Shm(path)}, path) == [];
    assert Apply(b[path].image, []) == b[path].image;
  }

  ghost predicate CloserFrom(trail: seq<Files>, n: nat, a: Files, path: string) {
    forall i :: n <= i < |trail| ==> Closer(a, trail[i], path)
  }

  /** One connection closes; only the last one copies the log, and it may be interrupted at any point. */
  method CloseConnection(d: Drive, path: string)
    requires d.Recorded()
    modifies d
    ensures d.Recorded() && old(d.trail) <= d.trail && Closer(old(d.files), d.files, path)
    ensures CloserFrom(d.trail, |old(d.trail)|, old(d.files), path)
  {
    var last: bool := *;
    var copied: int := *;
    if !last || path !in d.files || !d.files[path].Main? {
      return;
    }
    ghost var was := d.files;
    var image, frames := d.files[path].image, Frames(d.files, path);
    if 0 <= copied < |frames| {
      CopiedIsCloser(was, path, copied);
      d.Put(path, Main(Apply(image, frames[..copied])));
      return;
    }
    CopiedIsCloser(was, path, |frames|);
    TidiedIsCloser(was, path);
    assert frames[..|frames|] == frames;
    Tidy(d, path);
  }

  /** The last connection copies the whole log, then removes the sidecars. */
  method Tidy(d: Drive, path: string)
    requires d.Recorded() && path in d.files && d.files[path].Main?
    modifies d
    ensures d.Recorded()
    ensures var main := old(d.files)[path := Main(Apply(old(d.files)[path].image, Frames(old(d.files), path)))];
      && d.trail == old(d.trail) + [main, main - {Wal(path)}, main - {Wal(path)} - {Shm(path)}]
      && d.files == main - {Wal(path)} - {Shm(path)}
  {
    d.Put(path, Main(Apply(d.files[path].image, Frames(d.files, path))));
    d.Remove(Wal(path));
    d.Remove(Shm(path));
  }

  /** Any number of connections, of any session, close now. */
  method CloseConnections(d: Drive, path: string)
    requires d.Recorded()
    modifies d
    ensures d.Recorded() && old(d.trail) <= d.trail && Closer(old(d.files), d.files, path)
    ensures CloserFrom(d.trail, |old(d.trail)|, old(d.files), path)
  {
    var n: int := *;
    while n > 0
      invariant d.Recorded() && old(d.trail) <= d.trail && Closer(old(d.files), d.files, path)
      invariant CloserFrom(d.trail, |old(d.trail)|, old(d.files), path)
    {
      ghost var before, m := d.files, |d.trail|;
      CloseConnection(d, path);
      CloserTrail(d.trail, |old(d.trail)|, m, old(d.files), before, path);
      CloserJoins(old(d.files), before, d.files, path);
      n := n - 1;
    }
  }

  lemma CloserTrail(trail: seq<Files>, n: nat, m: nat, a: Files, b: Files, path: string)
    requires n <= m <= |trail| && Closer(a, b, path) && CloserFrom(trail, m, b, path)
    requires forall i :: n <= i < m ==> Closer(a, trail[i], path)
    ensures CloserFrom(trail, n, a, path)
  {
    forall i | m <= i < |trail| ensures Closer(a, trail[i], path) {
      CloserJoins(a, b, trail[i], path);
    }
  }
}
