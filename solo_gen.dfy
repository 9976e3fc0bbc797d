/** The helpers of solo generation that run before the generator itself:
    escaping a path's backslashes for the generator's command line, and
    copying the bundled zips into the output folder when the copy on disk
    differs, once per run of the program. The output folder is a map from a
    file name to what is on disk under that name. */
module SoloGen {
  import opened Common

  const Backslash: byte := 0x5C

  /** The path's UTF-8 bytes with every backslash doubled. */
  function Escaped(s: seq<byte>): seq<byte>
  {
    if |s| == 0 then []
    else Escaped(s[..|s| - 1]) + if s[|s| - 1] == Backslash then [Backslash, Backslash] else [s[|s| - 1]]
  }

  /** path_to_string_utf8: copy the bytes, writing an extra backslash before
      each backslash. */
  method PathToStringUtf8(path: seq<byte>) returns (ret: seq<byte>)
    ensures ret == Escaped(path)
  {
    ret := [];
    var i := 0;
    while i < |path|
      invariant 0 <= i <= |path|
      invariant ret == Escaped(path[..i])
    {
      var c := path[i];
      assert path[..i + 1][..i] == path[..i];
      if c == Backslash {
        ret := ret + [Backslash];
      }
      ret := ret + [c];
      i := i + 1;
    }
    assert path[..i] == path;
  }

  /** The number of backslashes in `s`. */
  function Backslashes(s: seq<byte>): nat
  {
    if |s| == 0 then 0
    else Backslashes(s[..|s| - 1]) + if s[|s| - 1] == Backslash then 1 else 0
  }

  /** Collapse each pair of backslashes to one; every other byte is kept. */
  function Unescaped(t: seq<byte>): seq<byte>
  {
    if |t| == 0 then []
    else if |t| >= 2 && t[0] == Backslash && t[1] == Backslash then [Backslash] + Unescaped(t[2..])
    else [t[0]] + Unescaped(t[1..])
  }

  /** The escaped path is one byte longer per backslash. */
  lemma {:induction false} EscapedLength(s: seq<byte>)
    ensures |Escaped(s)| == |s| + Backslashes(s)
  {
    if |s| > 0 {
      var init := s[..|s| - 1];
      EscapedLength(init);
    }
  }

  /** Without backslashes, escaping changes nothing. */
  lemma {:induction false} EscapedNoBackslash(s: seq<byte>)
    requires Backslash !in s
    ensures Escaped(s) == s
  {
    if |s| > 0 {
      var init := s[..|s| - 1];
      assert Backslash !in init by {
        forall b | b in init ensures b != Backslash {
          var k :| 0 <= k < |init| && init[k] == b;
          assert s[k] == b;
        }
      }
      EscapedNoBackslash(init);
      assert s == init + [s[|s| - 1]];
    }
  }

  /** Escaping a concatenation escapes each part. */
  lemma {:induction false} EscapedAppend(a: seq<byte>, b: seq<byte>)
    ensures Escaped(a + b) == Escaped(a) + Escaped(b)
    decreases |b|
  {
    if |b| == 0 {
      assert a + b == a;
    } else {
      var init := b[..|b| - 1];
      assert a + b == (a + init) + [b[|b| - 1]];
      assert (a + b)[..|a + b| - 1] == a + init;
      EscapedAppend(a, init);
    }
  }

  /** Escaping one byte in front. */
  lemma {:induction false} EscapedCons(c: byte, s: seq<byte>)
    ensures Escaped([c] + s) == (if c == Backslash then [Backslash, Backslash] else [c]) + Escaped(s)
  {
    var one: seq<byte> := [c];
    assert |one| == 1 && one[..0] == [] && one[0] == c;
    assert Escaped(one) == Escaped([]) + (if c == Backslash then [Backslash, Backslash] else [c]);
    EscapedAppend(one, s);
  }

  /** Collapsing the doubled backslashes gives the path back. */
  lemma {:induction false} UnescapeEscaped(s: seq<byte>)
    ensures Unescaped(Escaped(s)) == s
    decreases |s|
  {
    if |s| > 0 {
      var c, rest := s[0], s[1..];
      assert s == [c] + rest;
      EscapedCons(c, rest);
      UnescapeEscaped(rest);
      var e := Escaped(s);
      if c == Backslash {
        assert e == [Backslash, Backslash] + Escaped(rest);
        assert e[2..] == Escaped(rest);
      } else {
        assert e == [c] + Escaped(rest);
        assert e[1..] == Escaped(rest);
      }
    }
  }

  /** Two paths with the same escaped form are the same path. */
  lemma EscapedInjective(s: seq<byte>, t: seq<byte>)
    requires Escaped(s) == Escaped(t)
    ensures s == t
  {
    UnescapeEscaped(s);
    UnescapeEscaped(t);
  }

  /** What is on disk under a name: whether it opens, and its bytes. */
  datatype DiskFile = DiskFile(opens: bool, contents: seq<byte>)

  /** A zip bundled in the program, and the file name it is copied to. */
  datatype ZipEntry = ZipEntry(data: seq<byte>, name: seq<byte>)

  /** compare_zip: a file that is missing or does not open is not the zip,
      nor is one of another size; one of the same size is the zip when every
      byte matches. */
  function CompareZip(file: Option<DiskFile>, zip: ZipEntry): (same: bool)
    ensures same <==> file.Some? && file.value.opens && file.value.contents == zip.data
  {
    if file.None? then false
    else if !file.value.opens then false
    else if |file.value.contents| != |zip.data| then false
    else forall i | 0 <= i < |zip.data| :: file.value.contents[i] == zip.data[i]
  }

  function Lookup(files: map<seq<byte>, DiskFile>, name: seq<byte>): Option<DiskFile>
  {
    if name in files then Some(files[name]) else None
  }

  /** The folder after update_zips: each zip is written in turn unless it
      compares equal to what is there. */
  function UpdatedFiles(files: map<seq<byte>, DiskFile>, zips: seq<ZipEntry>): map<seq<byte>, DiskFile>
    decreases |zips|
  {
    if |zips| == 0 then files
    else
      var z := zips[0];
      UpdatedFiles(if CompareZip(Lookup(files, z.name), z) then files
                   else files[z.name := DiskFile(true, z.data)], zips[1..])
  }

  /** The names update_zips writes, in order. */
  function ZipsWritten(files: map<seq<byte>, DiskFile>, zips: seq<ZipEntry>): seq<seq<byte>>
    decreases |zips|
  {
    if |zips| == 0 then []
    else
      var z := zips[0];
      if CompareZip(Lookup(files, z.name), z) then ZipsWritten(files, zips[1..])
      else [z.name] + ZipsWritten(files[z.name := DiskFile(true, z.data)], zips[1..])
  }

  predicate DistinctNames(zips: seq<ZipEntry>)
  {
    forall i, j :: 0 <= i < j < |zips| ==> zips[i].name != zips[j].name
  }

  /** The output folder, and the names written to it so far. */
  class Disk {
    var files: map<seq<byte>, DiskFile>
    var writes: seq<seq<byte>>

    constructor (initial: map<seq<byte>, DiskFile>)
      ensures files == initial && writes == []
    {
      files := initial;
      writes := [];
    }

    /** write_zip: the file now holds the zip's bytes. */
    method WriteZip(zip: ZipEntry)
      modifies this
      ensures files == old(files)[zip.name := DiskFile(true, zip.data)]
      ensures writes == old(writes) + [zip.name]
    {
      files := files[zip.name := DiskFile(true, zip.data)];
      writes := writes + [zip.name];
    }

    /** update_zips: write each zip that does not compare equal. */
    method UpdateZips(zips: seq<ZipEntry>)
      modifies this
      ensures files == UpdatedFiles(old(files), zips)
      ensures writes == old(writes) + ZipsWritten(old(files), zips)
    {
      var i := 0;
      while i < |zips|
        invariant 0 <= i <= |zips|
        invariant UpdatedFiles(files, zips[i..]) == UpdatedFiles(old(files), zips)
        invariant writes + ZipsWritten(files, zips[i..]) == old(writes) + ZipsWritten(old(files), zips)
      {
        var z := zips[i];
        assert zips[i..][1..] == zips[i + 1..];
        if !CompareZip(Lookup(files, z.name), z) {
          WriteZip(z);
        }
        i := i + 1;
      }
    }
  }

  /** After update_zips, every bundled zip is on disk with its own bytes, and
      every other file is as it was. */
  lemma {:induction false} UpdatedFilesHoldZips(files: map<seq<byte>, DiskFile>, zips: seq<ZipEntry>)
    requires DistinctNames(zips)
    ensures forall k :: 0 <= k < |zips| ==>
      zips[k].name in UpdatedFiles(files, zips) && UpdatedFiles(files, zips)[zips[k].name] == DiskFile(true, zips[k].data)
    ensures forall n :: (forall k :: 0 <= k < |zips| ==> zips[k].name != n) ==> Lookup(UpdatedFiles(files, zips), n) == Lookup(files, n)
    decreases |zips|
  {
    if |zips| > 0 {
      var z := zips[0];
      var next := if CompareZip(Lookup(files, z.name), z) then files else files[z.name := DiskFile(true, z.data)];
      assert next.Keys == files.Keys + {z.name};
      assert next[z.name] == DiskFile(true, z.data);
      var rest := zips[1..];
      assert DistinctNames(rest) by {
        forall i, j | 0 <= i < j < |rest| ensures rest[i].name != rest[j].name {
          assert rest[i] == zips[i + 1] && rest[j] == zips[j + 1];
        }
      }
      UpdatedFilesHoldZips(next, rest);
      forall k | 0 <= k < |rest| ensures rest[k].name != z.name {
        assert rest[k] == zips[k + 1];
      }
      forall k | 1 <= k < |zips| ensures zips[k] == rest[k - 1] {}
      var after := UpdatedFiles(files, zips);
      assert after == UpdatedFiles(next, rest);
      assert Lookup(after, z.name) == Lookup(next, z.name) == Some(DiskFile(true, z.data));
    }
  }

  /** A zip is written exactly when it did not compare equal to the file
      that was there before. */
  lemma {:induction false} WrittenIffDiffered(files: map<seq<byte>, DiskFile>, zips: seq<ZipEntry>, k: nat)
    requires DistinctNames(zips) && k < |zips|
    ensures zips[k].name in ZipsWritten(files, zips) <==> !CompareZip(Lookup(files, zips[k].name), zips[k])
    decreases |zips|
  {
    var z := zips[0];
    var next := if CompareZip(Lookup(files, z.name), z) then files else files[z.name := DiskFile(true, z.data)];
    var rest := zips[1..];
    assert DistinctNames(rest) by {
      forall i, j | 0 <= i < j < |rest| ensures rest[i].name != rest[j].name {
        assert rest[i] == zips[i + 1] && rest[j] == zips[j + 1];
      }
    }
    if k == 0 {
      forall j | 0 <= j < |rest| ensures rest[j].name != z.name {
        assert rest[j] == zips[j + 1];
      }
      NotWrittenOutside(next, rest, z.name);
    } else {
      assert rest[k - 1] == zips[k];
      WrittenIffDiffered(next, rest, k - 1);
      assert Lookup(next, zips[k].name) == Lookup(files, zips[k].name);
    }
  }

  /** Only the names of the zips are ever written. */
  lemma {:induction false} NotWrittenOutside(files: map<seq<byte>, DiskFile>, zips: seq<ZipEntry>, n: seq<byte>)
    requires forall j :: 0 <= j < |zips| ==> zips[j].name != n
    ensures n !in ZipsWritten(files, zips)
    decreases |zips|
  {
    if |zips| > 0 {
      var z := zips[0];
      NotWrittenOutside(files, zips[1..], n);
      NotWrittenOutside(files[z.name := DiskFile(true, z.data)], zips[1..], n);
    }
  }

  /** Once the folder is updated, another update writes nothing. */
  lemma UpdateIdempotent(files: map<seq<byte>, DiskFile>, zips: seq<ZipEntry>)
    requires DistinctNames(zips)
    ensures ZipsWritten(UpdatedFiles(files, zips), zips) == []
    ensures UpdatedFiles(UpdatedFiles(files, zips), zips) == UpdatedFiles(files, zips)
  {
    UpdatedFilesHoldZips(files, zips);
    AllSameNothingWritten(UpdatedFiles(files, zips), zips);
  }

  /** When every zip compares equal, nothing is written and nothing changes. */
  lemma {:induction false} AllSameNothingWritten(files: map<seq<byte>, DiskFile>, zips: seq<ZipEntry>)
    requires forall k :: 0 <= k < |zips| ==> CompareZip(Lookup(files, zips[k].name), zips[k])
    ensures ZipsWritten(files, zips) == [] && UpdatedFiles(files, zips) == files
    decreases |zips|
  {
    if |zips| > 0 {
      assert CompareZip(Lookup(files, zips[0].name), zips[0]);
      forall k | 0 <= k < |zips[1..]| ensures CompareZip(Lookup(files, zips[1..][k].name), zips[1..][k]) {
        assert zips[1..][k] == zips[k + 1];
      }
      AllSameNothingWritten(files, zips[1..]);
    }
  }

  /** The static flag of sologen::generate. */
  class Generator {
    var updatedZips: bool

    constructor ()
      ensures !updatedZips
    {
      updatedZips := false;
    }

    /** The zip step of sologen::generate: update the zips in the output
        folder the first time only. */
    method Generate(disk: Disk, zips: seq<ZipEntry>)
      modifies this, disk
      ensures updatedZips
      ensures !old(updatedZips) ==> (disk.files == UpdatedFiles(old(disk.files), zips)
        && disk.writes == old(disk.writes) + ZipsWritten(old(disk.files), zips))
      ensures old(updatedZips) ==> (disk.files == old(disk.files) && disk.writes == old(disk.writes))
    {
      if !updatedZips {
        disk.UpdateZips(zips);
        updatedZips := true;
      }
    }
  }
}
