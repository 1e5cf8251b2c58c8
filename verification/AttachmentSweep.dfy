/**
 * The sweep of the pending directory: each call examines at most one window of the listing, and a
 * cursor carries the position over to the next call.
 */
module AttachmentSweep {
  import opened Wrappers

  const WINDOW: nat := 512
  const PENDING_LIFETIME: nat := 24 * 60 * 60
  const PART_LIFETIME: nat := 60 * 60

  datatype Stem = Stem(text: string)

  /** A directory entry; `modified` is absent when the time cannot be read. */
  datatype Entry = Entry(stem: Stem, extension: string, readable: bool, isFile: bool, modified: Option<nat>)

  function Lifetime(e: Entry): nat {
    if e.extension == "part" then PART_LIFETIME else PENDING_LIFETIME
  }

  predicate Expired(e: Entry, now: nat) {
    && e.readable && e.isFile && e.modified.Some?
    && now >= e.modified.value && now - e.modified.value >= Lifetime(e)
  }

  /** The entries of a window that stay. */
  function Kept(entries: seq<Entry>, now: nat): seq<Entry> {
    if entries == [] then []
    else
      var rest := Kept(entries[..|entries| - 1], now);
      if Expired(entries[|entries| - 1], now) then rest else rest + [entries[|entries| - 1]]
  }

  /** The identifiers whose pending records are forgotten. */
  function Stems(entries: seq<Entry>, now: nat): set<Stem> {
    if entries == [] then {}
    else
      var rest := Stems(entries[..|entries| - 1], now);
      if Expired(entries[|entries| - 1], now) then rest + {entries[|entries| - 1].stem} else rest
  }

  // ---------------------------------------------------------------- one sweep

  function Min(a: nat, b: nat): nat { if a <= b then a else b }

  /** The entries examined by one sweep. */
  function Examined(listing: seq<Entry>, cursor: nat): seq<Entry> {
    listing[Min(cursor, |listing|)..Min(cursor + WINDOW, |listing|)]
  }

  datatype Directory = Directory(listing: seq<Entry>, cursor: nat, truncated: bool)

  function Sweep(d: Directory, now: nat): Directory {
    var n := |d.listing|;
    var kept := Kept(Examined(d.listing, d.cursor), now);
    var left := d.listing[..Min(d.cursor, n)] + kept + d.listing[Min(d.cursor + WINDOW, n)..];
    if n > d.cursor + WINDOW then Directory(left, d.cursor + |kept|, true) else Directory(left, 0, false)
  }

  class PendingSweeper {
    var listing: seq<Entry>
    var cursor: nat
    var pending: set<Stem>

    /** Examines entries from start on, up to a whole window. */
    method Examine(entries: seq<Entry>, start: nat, now: nat) returns (examined: nat, removed: nat, kept: seq<Entry>)
      requires start <= |entries|
      modifies this`pending
      ensures examined == Min(WINDOW, |entries| - start)
      ensures kept == Kept(entries[start..start + examined], now) && removed == examined - |kept|
      ensures pending == old(pending) - Stems(entries[start..start + examined], now)
    {
      examined, removed, kept := 0, 0, [];
      while start + examined < |entries| && examined < WINDOW
        invariant start + examined <= |entries| && examined <= WINDOW
        invariant kept == Kept(entries[start..start + examined], now) && removed == examined - |kept|
        invariant pending == old(pending) - Stems(entries[start..start + examined], now)
      {
        var e := entries[start + examined];
        SeenGrows(entries[start..start + examined], e, now);
        assert entries[start..start + examined + 1] == entries[start..start + examined] + [e];
        if !Expired(e, now) {
          kept := kept + [e];
        } else {
          pending := pending - {e.stem};
          removed := removed + 1;
        }
        examined := examined + 1;
      }
    }

    /** One traversal of the directory as it was listed; deletions succeed. */
    method SweepPending(now: nat) returns (truncated: bool)
      modifies this
      ensures Directory(listing, cursor, truncated) == Sweep(Directory(old(listing), old(cursor), false), now)
      ensures pending == old(pending) - Stems(Examined(old(listing), old(cursor)), now)
    {
      var start := Min(cursor, |listing|);
      var examined, removed, kept := Examine(listing, start, now);
      assert listing[start..start + examined] == Examined(listing, cursor);
      truncated := start + examined < |listing|;
      listing := listing[..start] + kept + listing[start + examined..];
      cursor := if truncated then cursor + examined - removed else 0;
    }
  }

  lemma SeenGrows(seen: seq<Entry>, e: Entry, now: nat)
    ensures Kept(seen + [e], now) == if Expired(e, now) then Kept(seen, now) else Kept(seen, now) + [e]
    ensures Stems(seen + [e], now) == if Expired(e, now) then Stems(seen, now) + {e.stem} else Stems(seen, now)
  {
    assert (seen + [e])[..|seen + [e]| - 1] == seen;
  }

  /** A file expires an hour after its last change when it is a partial one, and a day after it otherwise. */
  lemma ExpiredIff(e: Entry, now: nat)
    ensures Expired(e, now) <==>
            && e.readable && e.isFile && e.modified.Some?
            && now >= e.modified.value + if e.extension == "part" then 3_600 else 86_400
  {
  }

  /** The records forgotten are those of the files removed, and no other. */
  lemma {:induction false} ForgottenIff(entries: seq<Entry>, now: nat, stem: Stem)
    ensures stem in Stems(entries, now) <==> exists i :: 0 <= i < |entries| && entries[i].stem == stem && Expired(entries[i], now)
  {
    if entries != [] {
      var before := entries[..|entries| - 1];
      ForgottenIff(before, now, stem);
      assert forall i :: 0 <= i < |before| ==> before[i] == entries[i];
      if i :| 0 <= i < |before| && before[i].stem == stem && Expired(before[i], now) {
        assert entries[i].stem == stem;
      }
    }
  }

  // ---------------------------------------------------------------- what stays

  /** Keeping is filtering: order is preserved and exactly the expired entries go. */
  lemma {:induction false} KeptIsFilter(entries: seq<Entry>, now: nat)
    ensures |Kept(entries, now)| <= |entries|
    ensures forall e :: e in Kept(entries, now) <==> e in entries && !Expired(e, now)
  {
    if entries != [] {
      KeptIsFilter(entries[..|entries| - 1], now);
      assert entries == entries[..|entries| - 1] + [entries[|entries| - 1]];
    }
  }

  // ---------------------------------------------------------------- successive sweeps

  /** Sweeps at the given times, the next one starting where the last one left the cursor. */
  function Sweeps(listing: seq<Entry>, times: seq<nat>): Directory {
    if times == [] then Directory(listing, 0, true)
    else Sweep(Sweeps(listing, times[..|times| - 1]), times[|times| - 1])
  }

  /** What is left of the first n windows of a listing, window k having been examined at times[k]. */
  function Swept(listing: seq<Entry>, times: seq<nat>): seq<Entry> {
    if times == [] then []
    else
      var last := |times| - 1;
      Swept(listing, times[..last]) + Kept(WindowOf(listing, last), times[last])
  }

  /** The k-th window of a listing: 512 entries, or what is left. */
  function WindowOf(listing: seq<Entry>, k: nat): seq<Entry> {
    listing[Min(k * 512, |listing|)..Min((k + 1) * 512, |listing|)]
  }

  /**
   * While the windows before the last are swept, the cursor points at the first entry not yet
   * examined: what lies before it is what those windows left, what follows is untouched.
   */
  lemma {:induction false} CursorMeetsUnexamined(listing: seq<Entry>, times: seq<nat>)
    requires |times| * WINDOW < |listing| || times == []
    ensures var d := Sweeps(listing, times);
            && d.truncated && d.cursor == |Swept(listing, times)|
            && d.listing == Swept(listing, times) + listing[|times| * WINDOW..]
  {
    if times != [] {
      var last := |times| - 1;
      var before := times[..last];
      assert |times| * WINDOW == |before| * WINDOW + WINDOW;
      CursorMeetsUnexamined(listing, before);
      SweepNextWindow(Sweeps(listing, before), Swept(listing, before), listing, last, times[last]);
    }
  }

  /** One more sweep examines exactly the next window. */
  lemma SweepNextWindow(d: Directory, swept: seq<Entry>, listing: seq<Entry>, k: nat, now: nat)
    requires k * WINDOW <= |listing| && d.cursor == |swept| && d.listing == swept + listing[k * WINDOW..]
    ensures Examined(d.listing, d.cursor) == WindowOf(listing, k)
    ensures var next := Sweep(d, now);
            && next.listing == swept + Kept(WindowOf(listing, k), now) + listing[Min((k + 1) * WINDOW, |listing|)..]
            && next.truncated == ((k + 1) * WINDOW < |listing|)
            && next.cursor == if next.truncated then |swept| + |Kept(WindowOf(listing, k), now)| else 0
  {
    var rest := listing[k * WINDOW..];
    var m := Min(WINDOW, |rest|);
    assert (k + 1) * WINDOW == k * WINDOW + WINDOW;
    assert d.listing[|swept|..|swept| + m] == rest[..m] == WindowOf(listing, k);
    assert d.listing[..|swept|] == swept;
    assert d.listing[|swept| + m..] == rest[m..] == listing[Min((k + 1) * WINDOW, |listing|)..];
  }

  /** How many sweeps a directory of n entries takes. */
  function SweepsNeeded(n: nat): nat {
    if n == 0 then 1 else (n + 511) / 512
  }

  /**
   * A directory is finished after exactly max(1, ceil(n / 512)) sweeps: all before the last report
   * that they were cut short, the last one does not and rewinds the cursor; each entry has been
   * examined once, and exactly those expired at that time are gone.
   */
  lemma DirectoryFinishes(listing: seq<Entry>, times: seq<nat>)
    requires |times| == SweepsNeeded(|listing|)
    ensures forall k :: 0 < k < |times| ==> Sweeps(listing, times[..k]).truncated
    ensures Sweeps(listing, times) == Directory(Swept(listing, times), 0, false)
  {
    var last := |times| - 1;
    assert last * WINDOW <= |listing| <= |times| * WINDOW;
    assert last > 0 ==> last * WINDOW < |listing|;
    forall k | 0 < k < |times| ensures Sweeps(listing, times[..k]).truncated {
      assert k * WINDOW <= last * WINDOW;
      CursorMeetsUnexamined(listing, times[..k]);
    }
    CursorMeetsUnexamined(listing, times[..last]);
    SweepNextWindow(Sweeps(listing, times[..last]), Swept(listing, times[..last]), listing, last, times[last]);
    assert listing[|listing|..] == [];
  }

  /** The entry lies in window k and had not expired when that was examined. */
  predicate Survives(listing: seq<Entry>, times: seq<nat>, e: Entry, k: nat) {
    k < |times| && e in WindowOf(listing, k) && !Expired(e, times[k])
  }

  /** An entry stays exactly when it had not expired at the time its window was examined. */
  lemma EntryStaysIff(listing: seq<Entry>, times: seq<nat>, e: Entry)
    ensures e in Swept(listing, times) <==> exists k :: Survives(listing, times, e, k)
  {
    if e in Swept(listing, times) {
      var k := Survivor(listing, times, e);
    }
    if k :| Survives(listing, times, e, k) {
      SurvivorStays(listing, times, e, k);
    }
  }

  lemma {:induction false} Survivor(listing: seq<Entry>, times: seq<nat>, e: Entry) returns (k: nat)
    requires e in Swept(listing, times)
    ensures Survives(listing, times, e, k)
  {
    var last := |times| - 1;
    if e in Kept(WindowOf(listing, last), times[last]) {
      KeptIsFilter(WindowOf(listing, last), times[last]);
      k := last;
    } else {
      k := Survivor(listing, times[..last], e);
    }
  }

  lemma {:induction false} SurvivorStays(listing: seq<Entry>, times: seq<nat>, e: Entry, k: nat)
    requires Survives(listing, times, e, k)
    ensures e in Swept(listing, times)
  {
    var last := |times| - 1;
    if k == last {
      KeptIsFilter(WindowOf(listing, last), times[last]);
    } else {
      SurvivorStays(listing, times[..last], e, k);
    }
  }
}
