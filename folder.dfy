/**
 * The downloads directory (DOWNLOAD_FOLDER) and the three helpers of app.py that
 * change it: create_lock_file, delete_lock_file and cleanup_downloads_folder
 * (app.py:55-74), plus delete_after_serving (app.py:48-52). The directory is a
 * map from entry name to the kind of entry.
 */
module Folder {
  import opened Wrappers

  datatype Kind = File | Dir

  type Listing = map<string, Kind>

  /** The marker file that reserves `name`: `f"{name}.lock"`. */
  function LockName(name: string): string {
    name + ".lock"
  }

  /** `s.endswith(suffix)`. */
  predicate EndsWith(s: string, suffix: string) {
    |suffix| <= |s| && s[|s| - |suffix|..] == suffix
  }

  /** An entry the sweep skips by name. */
  predicate IsMarker(name: string) {
    EndsWith(name, ".lock")
  }

  /** An entry the sweep leaves: a marker by name, or anything that is not a regular file. */
  predicate SurvivesSweep(name: string, kind: Kind) {
    IsMarker(name) || kind == Dir
  }

  /**
   * The directory after one run of cleanup_downloads_folder: it only removes
   * entries, and it removes every regular file whose name does not end in `.lock`.
   */
  function Swept(m: Listing): (r: Listing)
    ensures forall n :: n in r ==> n in m && r[n] == m[n]
    ensures forall n :: n in m && m[n] == File && !IsMarker(n) ==> n !in r
  {
    map n | n in m && SurvivesSweep(n, m[n]) :: m[n]
  }

  /**
   * The directory after create_lock_file(name), or None when `open(path, 'w')`
   * raises because the marker path is a directory.
   */
  function WithLock(m: Listing, name: string): (r: Option<Listing>)
    ensures r.None? <==> LockName(name) in m && m[LockName(name)] == Dir
    ensures r.Some? ==> r.value.Keys == m.Keys + {LockName(name)} && r.value[LockName(name)] == File
    ensures r.Some? ==> forall n :: n in m && n != LockName(name) ==> r.value[n] == m[n]
  {
    var lock := LockName(name);
    if lock in m && m[lock] == Dir then None else Some(m[lock := File])
  }

  /**
   * The directory after delete_lock_file(name): the marker removed if it exists,
   * nothing changed if not, or None when `os.remove` raises because the marker
   * path is a directory.
   */
  function WithoutLock(m: Listing, name: string): (r: Option<Listing>)
    ensures r.None? <==> LockName(name) in m && m[LockName(name)] == Dir
    ensures r.Some? ==> r.value.Keys == m.Keys - {LockName(name)}
    ensures r.Some? ==> forall n :: n in r.value ==> r.value[n] == m[n]
  {
    var lock := LockName(name);
    if lock !in m then Some(m)
    else if m[lock] == Dir then None
    else Some(m - {lock})
  }

  /** The directory after delete_after_serving(name): a regular file is removed, every failure is swallowed. */
  function AfterServe(m: Listing, name: string): (r: Listing)
    ensures name in r <==> name in m && m[name] == Dir
    ensures forall n :: n != name ==> (n in r <==> n in m)
    ensures forall n :: n in r ==> r[n] == m[n]
  {
    if name in m && m[name] == File then m - {name}
    else
      assert name in m ==> m[name] == Dir;
      m
  }

  /** The shared downloads directory. */
  class DownloadsFolder {
    /** The directory's own path, DOWNLOAD_FOLDER. */
    const root: string
    var entries: Listing

    constructor (root: string, entries: Listing)
      ensures this.root == root && this.entries == entries
    {
      this.root := root;
      this.entries := entries;
    }

    /** create_lock_file (app.py:55-57); `ok` is false when it raises. */
    method CreateLockFile(name: string) returns (ok: bool)
      modifies this
      ensures ok == WithLock(old(entries), name).Some?
      ensures entries == WithLock(old(entries), name).GetOr(old(entries))
    {
      var lock := LockName(name);
      if lock in entries && entries[lock] == Dir {
        return false;
      }
      entries := entries[lock := File];
      ok := true;
    }

    /** delete_lock_file (app.py:60-63); `ok` is false when it raises. */
    method DeleteLockFile(name: string) returns (ok: bool)
      modifies this
      ensures ok == WithoutLock(old(entries), name).Some?
      ensures entries == WithoutLock(old(entries), name).GetOr(old(entries))
    {
      var lock := LockName(name);
      ok := true;
      if lock in entries {
        if entries[lock] == Dir {
          return false;
        }
        entries := entries - {lock};
      }
    }

    /** cleanup_downloads_folder (app.py:66-74): a loop over the listing that removes unmarked regular files. */
    method CleanupDownloadsFolder()
      modifies this
      ensures entries == Swept(old(entries))
      ensures entries == Apply(old(entries), Sweep)
    {
      var pending := entries.Keys;
      while pending != {}
        invariant pending <= old(entries).Keys
        invariant entries == map n | n in old(entries) && (n in pending || SurvivesSweep(n, old(entries)[n])) :: old(entries)[n]
        decreases pending
      {
        var filename :| filename in pending;
        if !IsMarker(filename) && entries[filename] == File {
          entries := entries - {filename};
        }
        pending := pending - {filename};
      }
    }

    /** delete_after_serving (app.py:48-52), run once the response is closed. */
    method DeleteAfterServing(name: string)
      modifies this
      ensures entries == AfterServe(old(entries), name)
      ensures entries == Apply(old(entries), Close(name))
    {
      if name in entries && entries[name] == File {
        entries := entries - {name};
      }
    }
  }

  /** After a sweep the only regular files left are markers. */
  lemma SweepLeavesOnlyMarkers(m: Listing)
    ensures forall n :: n in Swept(m) && Swept(m)[n] == File ==> IsMarker(n)
  {
  }

  /** A sweep keeps every marker and every directory entry, unchanged. */
  lemma SweepKeepsMarkersAndDirs(m: Listing)
    ensures forall n :: n in m && (IsMarker(n) || m[n] == Dir) ==> n in Swept(m) && Swept(m)[n] == m[n]
    ensures forall n :: n in Swept(m) ==> n in m && Swept(m)[n] == m[n]
  {
  }

  /** A second sweep changes nothing. */
  lemma SweepIdempotent(m: Listing)
    ensures Swept(Swept(m)) == Swept(m)
  {
  }

  /** The sweep spares `name.lock` but not `name`: a video is deleted even while its marker exists. */
  lemma SweepIgnoresMarkerOwner(m: Listing, name: string)
    requires name in m && m[name] == File && !IsMarker(name)
    requires LockName(name) in m && m[LockName(name)] == File
    ensures name !in Swept(m)
    ensures LockName(name) in Swept(m)
  {
  }

  /** Releasing a marker twice is the same as releasing it once. */
  lemma ReleaseIdempotent(m: Listing, name: string)
    requires WithoutLock(m, name).Some?
    ensures WithoutLock(WithoutLock(m, name).value, name) == WithoutLock(m, name)
  {
  }

  /** Creating a marker that was absent and then releasing it restores the directory. */
  lemma CreateThenRelease(m: Listing, name: string)
    requires LockName(name) !in m
    ensures WithLock(m, name).Some?
    ensures WithoutLock(WithLock(m, name).value, name) == Some(m)
  {
    assert WithLock(m, name).value - {LockName(name)} == m;
  }

  /**
   * Two requests that produce the same name share one marker: the second
   * create is a no-op and a single release removes the marker of both.
   */
  lemma SharedMarker(m: Listing, name: string)
    requires WithLock(m, name).Some?
    ensures WithLock(WithLock(m, name).value, name) == WithLock(m, name)
    ensures WithoutLock(WithLock(m, name).value, name).Some?
    ensures LockName(name) !in WithoutLock(WithLock(m, name).value, name).value
  {
    var once := WithLock(m, name).value;
    assert once[LockName(name) := File] == once;
  }

  /**
   * The steps that change the directory, each atomic: a file written by the
   * download collaborator, a marker created by `download`, a marker released by
   * `download_file`, the served file removed on close, and a janitor sweep.
   */
  datatype Event = Write(name: string) | CreateLock(name: string) | Serve(name: string)
                 | Close(name: string) | Sweep

  /**
   * The directory after one event; a step that raises leaves it as it was. No
   * event touches a directory entry, and only `Write` and `CreateLock` add a
   * name: the regular file they name.
   */
  function Apply(m: Listing, e: Event): (r: Listing)
    ensures forall n :: n in m && m[n] == Dir ==> n in r && r[n] == Dir
    ensures forall n :: n in r && n !in m ==>
              r[n] == File && ((e.Write? && e.name == n) || (e.CreateLock? && n == LockName(e.name)))
    ensures !e.Write? && !e.CreateLock? ==> forall n :: n in r ==> n in m && r[n] == m[n]
  {
    match e
    case Write(n) => if n in m && m[n] == Dir then m else m[n := File]
    case CreateLock(n) => WithLock(m, n).GetOr(m)
    case Serve(n) => if n in m && m[n] == File then WithoutLock(m, n).GetOr(m) else m
    case Close(n) => AfterServe(m, n)
    case Sweep => Swept(m)
  }

  /** The directory after a sequence of events, in order. */
  function Run(m: Listing, events: seq<Event>): Listing
    decreases |events|
  {
    if events == [] then m else Run(Apply(m, events[0]), events[1..])
  }

  /** The event removes the regular file `name` if it exists (a sweep never removes a marker). */
  predicate Removes(e: Event, name: string) {
    match e
    case Serve(n) => LockName(n) == name
    case Close(n) => n == name
    case Sweep => !IsMarker(name)
    case _ => false
  }

  /**
   * Under any interleaving of requests and sweeps, a marker stays in place as
   * long as no event releases it: the janitor never deletes a marker.
   */
  lemma {:induction false} MarkerSurvivesUntilReleased(m: Listing, events: seq<Event>, name: string)
    requires IsMarker(name) && name in m && m[name] == File
    requires forall i :: 0 <= i < |events| ==> !Removes(events[i], name)
    ensures name in Run(m, events) && Run(m, events)[name] == File
    decreases |events|
  {
    if events != [] {
      var m' := Apply(m, events[0]);
      assert !Removes(events[0], name);
      assert name in m' && m'[name] == File;
      MarkerSurvivesUntilReleased(m', events[1..], name);
    }
  }

  /**
   * Under any interleaving, a regular file that is not a marker is gone after a
   * sweep unless a later event writes it again: holding a marker does not protect it.
   */
  lemma {:induction false} SweepRemovesUnlessRewritten(m: Listing, events: seq<Event>, k: nat, name: string)
    requires k < |events| && events[k] == Sweep && !IsMarker(name)
    requires forall i :: k < i < |events| ==> events[i] != Write(name)
    ensures name in Run(m, events) ==> Run(m, events)[name] == Dir
    decreases |events|
  {
    var m' := Apply(m, events[0]);
    if k == 0 {
      assert name in m' ==> m'[name] == Dir;
      NoWriteKeepsAbsence(m', events[1..], name);
    } else {
      SweepRemovesUnlessRewritten(m', events[1..], k - 1, name);
    }
  }

  lemma {:induction false} NoWriteKeepsAbsence(m: Listing, events: seq<Event>, name: string)
    requires !IsMarker(name) && (name in m ==> m[name] == Dir)
    requires forall i :: 0 <= i < |events| ==> events[i] != Write(name)
    ensures name in Run(m, events) ==> Run(m, events)[name] == Dir
    decreases |events|
  {
    if events != [] {
      var m' := Apply(m, events[0]);
      assert events[0] != Write(name);
      if events[0].CreateLock? {
        assert LockName(events[0].name) != name by {
          assert IsMarker(LockName(events[0].name)) by {
            assert LockName(events[0].name)[|LockName(events[0].name)| - 5..] == ".lock";
          }
        }
      }
      assert name in m' ==> m'[name] == Dir;
      NoWriteKeepsAbsence(m', events[1..], name);
    }
  }

  /** Written, then locked, then swept: the marker stays and the video it reserves is gone. */
  lemma LockedVideoIsSwept(name: string)
    requires !IsMarker(name)
    ensures var m := Run(map[], [Write(name), CreateLock(name), Sweep]);
            name !in m && LockName(name) in m && m[LockName(name)] == File
  {
    var m1 := Apply(map[], Write(name));
    var m2 := Apply(m1, CreateLock(name));
    assert IsMarker(LockName(name)) by {
      assert LockName(name)[|LockName(name)| - 5..] == ".lock";
    }
    SweepIgnoresMarkerOwner(m2, name);
    var events := [Write(name), CreateLock(name), Sweep];
    assert events[1..] == [CreateLock(name), Sweep] && events[1..][1..] == [Sweep];
    assert Run(map[], events) == Run(m1, [CreateLock(name), Sweep]);
    assert Run(m1, [CreateLock(name), Sweep]) == Run(m2, [Sweep]);
    assert Run(m2, [Sweep]) == Run(Swept(m2), []);
  }
}
