/** Files as change detection sees them (src/compiler/stamp.rs). */
module Stamps {
  import opened Wrappers

  /** The components of an absolute path; a directory is a proper prefix of what it holds. */
  type Path = seq<string>

  datatype FileStamp = FileStamp(len: nat, modified: Option<int>)

  /** One moment of the file system: the stamp of everything that exists. */
  type World = map<Path, FileStamp>

  function StampOf(w: World, path: Path): Option<FileStamp> {
    if path in w then Some(w[path]) else None
  }

  /** Watched paths with the stamp each had, `None` for one that did not exist. */
  type Watched = map<Path, Option<FileStamp>>

  function Watch(watched: Watched, w: World, path: Path): Watched {
    if path in watched then watched else watched[path := StampOf(w, path)]
  }

  /** Some stamp is not the one `w` shows. */
  predicate Changed(watched: Watched, w: World) {
    exists path | path in watched :: StampOf(w, path) != watched[path]
  }

  /** Both moments show every path of `paths` alike. */
  predicate AgreeOn(w1: World, w2: World, paths: set<Path>) {
    forall path | path in paths :: StampOf(w1, path) == StampOf(w2, path)
  }

  /** Every stamp is the one `w` shows. */
  predicate Current(watched: Watched, w: World) {
    forall path | path in watched :: watched[path] == StampOf(w, path)
  }

  ghost predicate SameEntries(w1: World, w2: World, directory: Path) {
    forall name: string :: directory + [name] in w1 <==> directory + [name] in w2
  }

  /** A directory whose stamp is unchanged has the same entries. */
  ghost predicate DirectoriesTell(w1: World, w2: World) {
    forall directory: Path {:trigger SameEntries(w1, w2, directory)} ::
      StampOf(w1, directory) == StampOf(w2, directory) ==> SameEntries(w1, w2, directory)
  }

  lemma UnchangedAgrees(watched: Watched, w1: World, w2: World)
    requires Current(watched, w1) && !Changed(watched, w2)
    ensures AgreeOn(w1, w2, watched.Keys) && Current(watched, w2)
  {}

  function Restamped(watched: Watched, w: World): Watched {
    map path | path in watched :: StampOf(w, path)
  }

  /** A failure does not count as a change again: the files it and the loaded version looked at,
      taken as they are now, show a change exactly when one of them is touched again. */
  lemma RestampedReportsOnce(loaded: Watched, failed: Watched, now: World, later: World)
    ensures !Changed(Restamped(loaded + failed, now), now)
    ensures Changed(Restamped(loaded + failed, now), later) <==> !AgreeOn(now, later, loaded.Keys + failed.Keys)
  {
    var watched := Restamped(loaded + failed, now);
    assert watched.Keys == loaded.Keys + failed.Keys;
  }

  /** Stamps that are added to, merged and renewed in place. */
  class WatchedFiles {
    var files: Watched

    constructor ()
      ensures files == map[]
    {
      files := map[];
    }

    method WatchPath(w: World, path: Path)
      modifies this
      ensures files == Watch(old(files), w, path)
    {
      if path !in files {
        files := files[path := StampOf(w, path)];
      }
    }

    /** The given stamp replaces any other. */
    method WatchStamped(path: Path, stamp: Option<FileStamp>)
      modifies this
      ensures files == old(files)[path := stamp]
    {
      files := files[path := stamp];
    }

    method AnyChanged(w: World) returns (changed: bool)
      ensures changed == Changed(files, w)
    {
      var pending := files.Keys;
      while pending != {}
        invariant pending <= files.Keys
        invariant forall path | path in files && path !in pending :: StampOf(w, path) == files[path]
      {
        var path :| path in pending;
        pending := pending - {path};
        if StampOf(w, path) != files[path] {
          return true;
        }
      }
      changed := false;
    }

    method Restamp(w: World)
      modifies this
      ensures files == Restamped(old(files), w)
    {
      ghost var before := files;
      var pending := files.Keys;
      while pending != {}
        invariant pending <= files.Keys == before.Keys
        invariant forall path | path in files :: files[path] == if path in pending then before[path] else StampOf(w, path)
      {
        var path :| path in pending;
        pending := pending - {path};
        files := files[path := StampOf(w, path)];
      }
    }

    method Merge(other: Watched)
      modifies this
      ensures files == old(files) + other
    {
      files := files + other;
    }
  }
}
