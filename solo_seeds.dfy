/** The list of solo seeds: rando_scan_solo_seeds keeps the regular files of
    the seed folder named "AP_<seed>_solo.zip", newest first, and three
    handlers read the list by index. The directory listing, with each file's
    last-write time and its formatted date, is a parameter. */
module SoloSeeds {
  import opened Common
  import opened CStrings

  /** "AP_" */
  const Prefix: seq<byte> := [0x41, 0x50, 0x5F]
  /** "_solo.zip" */
  const Suffix: seq<byte> := [0x5F, 0x73, 0x6F, 0x6C, 0x6F, 0x2E, 0x7A, 0x69, 0x70]

  /** One directory entry: its file name, whether it is a regular file, its
      last-write time and that time as format_file_time renders it. */
  datatype DirEntry = DirEntry(name: seq<byte>, isRegularFile: bool, timestamp: int, dateString: seq<byte>)

  datatype SoloSeed = SoloSeed(seedName: seq<byte>, timestamp: int, dateString: seq<byte>)

  /** The name starts with "AP_" and ends with "_solo.zip"; the two may overlap. */
  predicate IsSeedFileName(name: seq<byte>)
  {
    |name| >= |Suffix| && name[..|Prefix|] == Prefix && name[|name| - |Suffix|..] == Suffix
  }

  /** `s.substr(pos, count)`: at most `count` bytes from `pos`. */
  function Substr(s: seq<byte>, pos: nat, count: nat): (r: seq<byte>)
    requires pos <= |s|
    ensures |r| == Min(count, |s| - pos)
    ensures forall i :: 0 <= i < |r| ==> r[i] == s[pos + i]
  {
    s[pos..pos + Min(count, |s| - pos)]
  }

  /** The seed name the scan stores: the substring from the end of the prefix,
      of length size - 3 - 9 computed in size_t, which wraps to a huge count
      for a name shorter than the two affixes together. */
  function SeedNameOf(name: seq<byte>): seq<byte>
    requires IsSeedFileName(name)
  {
    Substr(name, |Prefix|, (|name| - |Prefix| - |Suffix|) % 0x1_0000_0000_0000_0000)
  }

  /** A directory entry the scan keeps. */
  predicate IsSeedEntry(e: DirEntry)
  {
    e.isRegularFile && IsSeedFileName(e.name)
  }

  function SeedOf(e: DirEntry): SoloSeed
    requires IsSeedEntry(e)
  {
    SoloSeed(SeedNameOf(e.name), e.timestamp, e.dateString)
  }

  /** The seeds of the kept entries, in directory order. */
  function SeedsOf(entries: seq<DirEntry>): seq<SoloSeed>
  {
    if |entries| == 0 then []
    else
      var last := entries[|entries| - 1];
      SeedsOf(entries[..|entries| - 1]) + if IsSeedEntry(last) then [SeedOf(last)] else []
  }

  /** Timestamps do not increase along the list. */
  predicate NewestFirst(seeds: seq<SoloSeed>)
  {
    forall i, j :: 0 <= i < j < |seeds| ==> seeds[i].timestamp >= seeds[j].timestamp
  }

  /** A name of at least twelve bytes is the prefix, the seed name and the suffix. */
  lemma SeedNameBetween(name: seq<byte>)
    requires IsSeedFileName(name) && |Prefix| + |Suffix| <= |name| < 0x1_0000_0000_0000_0000
    ensures name == Prefix + SeedNameOf(name) + Suffix
  {
    var seed := SeedNameOf(name);
    assert |seed| == |name| - 12;
    assert name == name[..3] + name[3..|name| - 9] + name[|name| - 9..];
    assert seed == name[3..|name| - 9];
  }

  /** Every seed's file name, "AP_" + seed + "_solo.zip" as rando_init_solo
      builds it, is recognised by the scan and gives the seed back. */
  lemma SeedFileNameRoundTrip(seed: seq<byte>)
    requires |Prefix + seed + Suffix| < 0x1_0000_0000_0000_0000
    ensures IsSeedFileName(Prefix + seed + Suffix)
    ensures SeedNameOf(Prefix + seed + Suffix) == seed
  {
    var name := Prefix + seed + Suffix;
    assert name[..|Prefix|] == Prefix;
    assert name[|name| - |Suffix|..] == Suffix;
    assert name[3..|name| - 9] == seed;
  }

  /** Only the eleven-byte "AP_solo.zip" is shorter than the two affixes and
      still matches; its count wraps, so its seed name is "solo.zip", whose
      own file name "AP_solo.zip_solo.zip" differs from it. */
  lemma OverlappingSeedFileName(name: seq<byte>)
    requires IsSeedFileName(name) && |name| < |Prefix| + |Suffix|
    ensures name == Prefix + Suffix[1..]
    ensures SeedNameOf(name) == Suffix[1..]
    ensures Prefix + SeedNameOf(name) + Suffix != name
  {
    assert name[0] == 0x41 && name[1] == 0x50 && name[2] == 0x5F;
    var k := |name| - |Suffix|;
    assert name[k] == 0x5F;
    assert k == 2;
    assert name == Prefix + Suffix[1..];
  }

  /** The kept entries, and no others, give the listed seeds. */
  lemma {:induction false} SeedsOfMembers(entries: seq<DirEntry>)
    ensures |SeedsOf(entries)| <= |entries|
    ensures forall k :: 0 <= k < |entries| && IsSeedEntry(entries[k]) ==> SeedOf(entries[k]) in SeedsOf(entries)
    ensures forall s :: s in SeedsOf(entries) ==>
      exists k :: 0 <= k < |entries| && IsSeedEntry(entries[k]) && SeedOf(entries[k]) == s
  {
    if |entries| > 0 {
      var init := entries[..|entries| - 1];
      SeedsOfMembers(init);
      forall s | s in SeedsOf(entries)
        ensures exists k :: 0 <= k < |entries| && IsSeedEntry(entries[k]) && SeedOf(entries[k]) == s
      {
        if s in SeedsOf(init) {
          var k :| 0 <= k < |init| && IsSeedEntry(init[k]) && SeedOf(init[k]) == s;
          assert entries[k] == init[k];
        } else {
          assert IsSeedEntry(entries[|entries| - 1]) && SeedOf(entries[|entries| - 1]) == s;
        }
      }
      forall k | 0 <= k < |entries| && IsSeedEntry(entries[k])
        ensures SeedOf(entries[k]) in SeedsOf(entries)
      {
        if k < |init| {
          assert init[k] == entries[k];
        }
      }
    }
  }

  /** The listed seed names all come from names of the "AP_<seed>_solo.zip"
      form: a name of at least twelve bytes is exactly that file name. */
  lemma ListedSeedsFromFileNames(entries: seq<DirEntry>, k: nat)
    requires k < |entries| && IsSeedEntry(entries[k]) && 12 <= |entries[k].name| < 0x1_0000_0000_0000_0000
    ensures entries[k].name == Prefix + SeedOf(entries[k]).seedName + Suffix
  {
    SeedNameBetween(entries[k].name);
  }

  /** `seeds` with `x` inserted after every seed at least as new. */
  method InsertNewestFirst(seeds: seq<SoloSeed>, x: SoloSeed) returns (r: seq<SoloSeed>)
    requires NewestFirst(seeds)
    ensures multiset(r) == multiset(seeds) + multiset{x}
    ensures NewestFirst(r)
  {
    var k := 0;
    while k < |seeds| && seeds[k].timestamp >= x.timestamp
      invariant 0 <= k <= |seeds|
      invariant forall j :: 0 <= j < k ==> seeds[j].timestamp >= x.timestamp
    {
      k := k + 1;
    }
    r := seeds[..k] + [x] + seeds[k..];
    assert seeds == seeds[..k] + seeds[k..];
    InsertedInOrder(seeds, x, k, r);
  }

  /** Placing `x` at `k`, after the seeds at least as new and before the
      rest, keeps a newest-first list newest first. */
  lemma InsertedInOrder(seeds: seq<SoloSeed>, x: SoloSeed, k: nat, r: seq<SoloSeed>)
    requires NewestFirst(seeds) && k <= |seeds| && r == seeds[..k] + [x] + seeds[k..]
    requires forall j :: 0 <= j < k ==> seeds[j].timestamp >= x.timestamp
    requires k < |seeds| ==> seeds[k].timestamp < x.timestamp
    ensures NewestFirst(r)
  {
    forall i, j | 0 <= i < j < |r|
      ensures r[i].timestamp >= r[j].timestamp
    {
      var ti := if i < k then seeds[i].timestamp else if i == k then x.timestamp else seeds[i - 1].timestamp;
      var tj := if j < k then seeds[j].timestamp else if j == k then x.timestamp else seeds[j - 1].timestamp;
      assert r[i].timestamp == ti && r[j].timestamp == tj;
      if i == k && j > k {
        assert seeds[k].timestamp >= seeds[j - 1].timestamp;
      }
    }
  }

  /** std::sort with `lhs.timestamp > rhs.timestamp`: the same seeds, newest
      first (the order of equal timestamps is unspecified). */
  method SortNewestFirst(seeds: seq<SoloSeed>) returns (r: seq<SoloSeed>)
    ensures multiset(r) == multiset(seeds)
    ensures NewestFirst(r)
  {
    r := [];
    var i := 0;
    while i < |seeds|
      invariant 0 <= i <= |seeds|
      invariant multiset(r) == multiset(seeds[..i])
      invariant NewestFirst(r)
    {
      r := InsertNewestFirst(r, seeds[i]);
      assert seeds[..i + 1] == seeds[..i] + [seeds[i]];
      i := i + 1;
    }
    assert seeds[..i] == seeds;
  }

  /** solo_state: the seeds found by the last scan and the folder scanned. */
  class SoloState {
    var seeds: seq<SoloSeed>
    var seedFolder: seq<byte>

    constructor ()
      ensures seeds == [] && seedFolder == []
    {
      seeds := [];
      seedFolder := [];
    }

    /** rando_scan_solo_seeds: the folder is the save file's parent; the list
        is cleared, refilled with the seeds of the kept entries and sorted
        newest first. */
    method ScanSoloSeeds(folder: seq<byte>, entries: seq<DirEntry>)
      modifies this
      ensures seedFolder == folder
      ensures multiset(seeds) == multiset(SeedsOf(entries))
      ensures NewestFirst(seeds)
    {
      seedFolder := folder;
      seeds := [];
      var i := 0;
      while i < |entries|
        invariant 0 <= i <= |entries|
        invariant seedFolder == folder
        invariant seeds == SeedsOf(entries[..i])
      {
        var e := entries[i];
        assert entries[..i + 1][..i] == entries[..i];
        if e.isRegularFile && |e.name| >= |Suffix| && e.name[..|Prefix|] == Prefix
          && e.name[|e.name| - |Suffix|..] == Suffix
        {
          var count := (|e.name| - |Prefix| - |Suffix|) % 0x1_0000_0000_0000_0000;
          seeds := seeds + [SoloSeed(Substr(e.name, |Prefix|, count), e.timestamp, e.dateString)];
        }
        i := i + 1;
      }
      assert entries[..i] == entries;
      seeds := SortNewestFirst(seeds);
    }

    /** rando_solo_count: the number of seeds, as a u32. */
    method Count() returns (n: u32)
      ensures n == U32(|seeds|)
    {
      n := U32(|seeds|);
    }

    /** rando_solo_get_seed_name: 0 and nothing written for an index past the
        list; otherwise the bounded copy of that seed's name. */
    method GetSeedName(rdram: array<byte>, index: u32, outPtr: nat, outLen: u32) returns (r: u32)
      requires index < |seeds| ==> BoundedFits(rdram.Length, outPtr, |seeds[index].seedName|, outLen)
      modifies rdram
      ensures index >= |seeds| ==> r == 0 && rdram[..] == old(rdram[..])
      ensures index < |seeds| ==> (r == U32(|seeds[index].seedName| + 1)
        && rdram[..] == BoundedWrite(old(rdram[..]), outPtr, seeds[index].seedName, outLen))
    {
      if index >= |seeds| {
        r := 0;
        return;
      }
      r := CopyBounded(rdram, outPtr, outLen, seeds[index].seedName);
    }

    /** rando_solo_get_generation_date: the same, for the seed's date string. */
    method GetGenerationDate(rdram: array<byte>, index: u32, outPtr: nat, outLen: u32) returns (r: u32)
      requires index < |seeds| ==> BoundedFits(rdram.Length, outPtr, |seeds[index].dateString|, outLen)
      modifies rdram
      ensures index >= |seeds| ==> r == 0 && rdram[..] == old(rdram[..])
      ensures index < |seeds| ==> (r == U32(|seeds[index].dateString| + 1)
        && rdram[..] == BoundedWrite(old(rdram[..]), outPtr, seeds[index].dateString, outLen))
    {
      if index >= |seeds| {
        r := 0;
        return;
      }
      r := CopyBounded(rdram, outPtr, outLen, seeds[index].dateString);
    }
  }

  /** After a scan, of two kept files with different times the newer one is
      listed first. */
  lemma {:induction false} NewerSeedListedFirst(entries: seq<DirEntry>, seeds: seq<SoloSeed>, a: nat, b: nat)
    requires multiset(seeds) == multiset(SeedsOf(entries)) && NewestFirst(seeds)
    requires a < |entries| && b < |entries| && IsSeedEntry(entries[a]) && IsSeedEntry(entries[b])
    requires entries[a].timestamp > entries[b].timestamp
    ensures exists i, j :: 0 <= i < j < |seeds| && seeds[i] == SeedOf(entries[a]) && seeds[j] == SeedOf(entries[b])
  {
    SeedsOfMembers(entries);
    var sa, sb := SeedOf(entries[a]), SeedOf(entries[b]);
    assert sa in multiset(seeds) && sb in multiset(seeds);
    var i :| 0 <= i < |seeds| && seeds[i] == sa;
    var j :| 0 <= j < |seeds| && seeds[j] == sb;
    if j <= i {
      assert false;
    }
  }
}
