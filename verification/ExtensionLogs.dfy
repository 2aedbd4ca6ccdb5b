/** An extension's log: rotated files, a ring of recent lines, and batches for subscribers. */
module ExtensionLogs {
  import opened Wrappers

  datatype Line = Line(text: string, bytes: nat)

  /** Log files by rotation number; 0 is the one being written. A missing number is a missing file. */
  type Files = map<nat, seq<Line>>

  const MAX_BYTES := 5 * 1024 * 1024
  const ROTATIONS := 2
  const RING_LINES := 500

  function Content(files: Files, k: nat): seq<Line> { if k in files then files[k] else [] }

  /** The files from rotation `k` down to the current one, oldest first. */
  function Joined(files: Files, k: nat): seq<Line> {
    if k == 0 then Content(files, 0) else Content(files, k) + Joined(files, k - 1)
  }

  function Bytes(lines: seq<Line>): nat {
    if lines == [] then 0 else Bytes(lines[..|lines| - 1]) + lines[|lines| - 1].bytes
  }

  predicate IsSuffix<T(==)>(a: seq<T>, b: seq<T>) { |a| <= |b| && b[|b| - |a|..] == a }

  function Last<T>(s: seq<T>, n: nat): (r: seq<T>)
    ensures |r| == if |s| <= n then |s| else n
  {
    if |s| <= n then s else s[|s| - n..]
  }

  // ---------------------------------------------------------------------------------------
  // Rotation

  /** Renaming replaces the target; without a source it does nothing. */
  function Rename(files: Files, from: nat, to: nat): Files {
    if from in files then (files - {from})[to := files[from]] else files
  }

  /** The file of a rotation number, if there is one. */
  function File(files: Files, k: nat): Option<seq<Line>> { if k in files then Some(files[k]) else None }

  /** Every file has moved up one number, and the one past the end is gone. */
  ghost predicate Shifted(files: Files, n: nat, files': Files) {
    && File(files', 0) == None
    && (forall k: nat :: k < n ==> File(files', k + 1) == File(files, k))
    && (forall k: nat :: k > n ==> File(files', k) == File(files, k))
  }

  /** The renaming loop, from the oldest file to the newest, for any number of rotations. */
  method RotateLogs(files: Files, n: nat) returns (files': Files)
    requires n > 0
    ensures Shifted(files, n, files')
  {
    files' := files - {n};
    var index := n - 1;
    while index > 0
      invariant 0 <= index < n
      invariant File(files', index + 1) == None
      invariant forall k: nat :: k <= index || k > n ==> File(files', k) == File(files, k)
      invariant forall k: nat :: index < k < n ==> File(files', k + 1) == File(files, k)
    {
      files' := Rename(files', index, index + 1);
      index := index - 1;
    }
    files' := Rename(files', 0, 1);
  }

  /** A rotation loses the oldest file and nothing else. */
  lemma {:induction false} JoinedAfterShift(files: Files, n: nat, files': Files, k: nat)
    requires Shifted(files, n, files') && 0 < k <= n
    ensures Joined(files', k) == Joined(files, k - 1)
  {
    if k == 1 {
      assert File(files', 0 + 1) == File(files, 0);
    } else {
      JoinedAfterShift(files, n, files', k - 1);
      assert File(files', (k - 1) + 1) == File(files, k - 1);
    }
  }

  /** Writing to the current file writes to the end of the whole. */
  lemma {:induction false} JoinedAfterWrite(files: Files, lines: seq<Line>, k: nat)
    ensures Joined(files[0 := Content(files, 0) + lines], k) == Joined(files, k) + lines
  {
    if k > 0 {
      JoinedAfterWrite(files, lines, k - 1);
      var older, newer := Content(files, k), Joined(files, k - 1);
      assert Content(files[0 := Content(files, 0) + lines], k) == older;
      assert older + (newer + lines) == (older + newer) + lines;
    }
  }

  /** What is on disk stays a suffix of what was written when the oldest file goes and a line comes. */
  lemma SuffixAfterRotation(files: Files, n: nat, files': Files, all: seq<Line>, line: Line)
    requires n > 0 && Joined(files', n) == Joined(files, n - 1) && IsSuffix(Joined(files, n), all)
    ensures IsSuffix(Joined(files', n) + [line], all + [line])
  {
    SuffixOfAppended(Content(files, n), Joined(files', n), all, line);
  }

  lemma SuffixOfAppended<T>(dropped: seq<T>, kept: seq<T>, all: seq<T>, x: T)
    requires IsSuffix(dropped + kept, all)
    ensures IsSuffix(kept + [x], all + [x])
  {
    assert all[|all| - |kept|..] == (dropped + kept)[|dropped|..] == kept;
    assert (all + [x])[|all| - |kept|..] == all[|all| - |kept|..] + [x];
  }

  lemma LastOfAppended<T>(s: seq<T>, x: T, n: nat)
    ensures Last(s + [x], n) == Last(Last(s, n) + [x], n)
  {
  }

  // ---------------------------------------------------------------------------------------
  // The log

  class ExtensionLog {
    var files: Files
    var size: nat
    var ring: seq<Line>
    var subscribers: set<nat>
    var pending: seq<Line>
    var flushScheduled: bool
    ghost var written: seq<Line>   // everything that went into the files, first to last
    ghost var appended: seq<Line>  // every line since this process started
    ghost var live: seq<Line>      // those appended while someone was subscribed
    ghost var drained: seq<Line>   // those sent on in batches

    ghost predicate Valid()
      reads this
    {
      && 0 in files && size == Bytes(files[0])
      && IsSuffix(Joined(files, 2), written)
      && ring == Last(appended, 500)
      && drained + pending == live
      && (pending != [] ==> flushScheduled)
    }

    /** A new process finds whatever files the last one left. */
    constructor (found: Files)
      ensures Valid() && written == Joined(found, ROTATIONS) && appended == [] && live == [] && drained == []
    {
      files := found[0 := Content(found, 0)];
      size := Bytes(Content(found, 0));
      ring, subscribers, pending, flushScheduled := [], {}, [], false;
      written, appended, live, drained := Joined(found, ROTATIONS), [], [], [];
      new;
      JoinedAfterWrite(found, [], ROTATIONS);
      assert Content(found, 0) + [] == Content(found, 0);
    }

    /** One line: to the files, rotating them first if it would not fit, to the ring, and to
        the next batch if some subscriber is still connected. */
    method Append(line: Line, connected: set<nat>)
      requires Valid()
      modifies this
      ensures Valid()
      ensures written == old(written) + [line] && appended == old(appended) + [line]
      ensures subscribers == old(subscribers) * connected && drained == old(drained)
      ensures live == if subscribers != {} then old(live) + [line] else old(live)
      // The files end with the line, and lost at most what had been the oldest of them.
      ensures old(size) + line.bytes <= 5_242_880 ==> Joined(files, 2) == old(Joined(files, 2)) + [line]
      ensures old(size) + line.bytes > 5_242_880 ==> Joined(files, 2) == old(Joined(files, 1)) + [line]
      ensures size <= 5_242_880 || files[0] == [line]
    {
      WriteFile(line);
      PushRing(line);
      appended := appended + [line];
      subscribers := subscribers * connected;
      if subscribers != {} {
        pending, live := pending + [line], live + [line];
        if !flushScheduled {
          flushScheduled := true;
        }
      }
    }

    /** Closes the current file, moves the files up, and opens an empty one. */
    method Rotate()
      modifies this`files, this`size
      ensures 0 in files && files[0] == [] && size == 0
      ensures Joined(files, ROTATIONS) == old(Joined(files, ROTATIONS - 1))
    {
      var rotated := RotateLogs(files, ROTATIONS);
      JoinedAfterShift(files, ROTATIONS, rotated, ROTATIONS);
      JoinedAfterWrite(rotated, [], ROTATIONS);
      assert Content(rotated, 0) + [] == [];
      files, size := rotated[0 := []], 0;
    }

    /** The ring forgets its oldest lines once it is full. */
    method PushRing(line: Line)
      requires ring == Last(appended, RING_LINES)
      modifies this`ring
      ensures ring == Last(appended + [line], RING_LINES)
    {
      LastOfAppended(appended, line, RING_LINES);
      ring := ring + [line];
      while |ring| > RING_LINES
        invariant Last(ring, RING_LINES) == Last(appended + [line], RING_LINES)
      {
        ring := ring[1..];
      }
    }

    method WriteFile(line: Line)
      requires 0 in files && size == Bytes(files[0]) && IsSuffix(Joined(files, ROTATIONS), written)
      modifies this`files, this`size, this`written
      ensures 0 in files && size == Bytes(files[0]) && IsSuffix(Joined(files, ROTATIONS), written)
      ensures written == old(written) + [line]
      ensures old(size) + line.bytes <= MAX_BYTES ==> Joined(files, ROTATIONS) == old(Joined(files, ROTATIONS)) + [line]
      ensures old(size) + line.bytes > MAX_BYTES ==>
        Joined(files, ROTATIONS) == old(Joined(files, ROTATIONS - 1)) + [line]
      ensures size <= MAX_BYTES || files[0] == [line]
    {
      if size + line.bytes > MAX_BYTES {
        Rotate();
        SuffixAfterRotation(old(files), ROTATIONS, files, written, line);
      } else {
        assert [] + Joined(files, ROTATIONS) == Joined(files, ROTATIONS);
        SuffixOfAppended([], Joined(files, ROTATIONS), written, line);
      }
      WriteLine(line);
      written := written + [line];
    }

    method WriteLine(line: Line)
      requires 0 in files && size == Bytes(files[0])
      modifies this`files, this`size
      ensures 0 in files && size == Bytes(files[0])
      ensures files[0] == old(Content(files, 0)) + [line] && size == old(size) + line.bytes
      ensures Joined(files, ROTATIONS) == old(Joined(files, ROTATIONS)) + [line]
    {
      JoinedAfterWrite(files, [line], ROTATIONS);
      assert (files[0] + [line])[..|files[0]|] == files[0];
      files := files[0 := files[0] + [line]];
      size := size + line.bytes;
    }

    /** The scheduled flush: everything pending goes out as one batch. */
    method FlushPending() returns (lines: seq<Line>)
      requires Valid()
      modifies this`pending, this`flushScheduled, this`drained
      ensures Valid() && pending == [] && !flushScheduled
      ensures lines == old(pending) && drained == old(drained) + lines
    {
      flushScheduled := false;
      lines := pending;
      drained := drained + pending;
      pending := [];
    }

    method Snapshot(lines: nat) returns (recent: seq<Line>)
      requires Valid()
      ensures recent == Last(appended, if lines < 500 then lines else 500)
    {
      var skip := if |ring| > lines then |ring| - lines else 0;
      recent := ring[skip..];
    }

    method Subscribe(client: nat, connected: set<nat>)
      requires Valid()
      modifies this`subscribers
      ensures Valid() && subscribers == old(subscribers) * connected + {client}
    {
      subscribers := subscribers * connected + {client};
    }

    method Unsubscribe(client: nat, connected: set<nat>)
      requires Valid()
      modifies this`subscribers
      ensures Valid() && subscribers == old(subscribers) * connected - {client}
    {
      subscribers := subscribers * connected - {client};
    }
  }
}
