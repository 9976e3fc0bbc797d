/** The saved connection settings (apconnect.txt): glueGetLine, the reader
    built from it, and the three-line format the writer produces. The file is
    a byte sequence and a read position; reading at the end gives EOF. */
module ConnectionFile {
  import opened Common

  const CR: byte := 0x0D
  const LF: byte := 0x0A

  /** A byte that ends a line: CR, LF, NUL, or 0xFF, which a signed `char`
      holds as -1 and so compares equal to EOF. */
  predicate EndsLine(b: byte)
  {
    b == CR || b == LF || b == 0 || b == 0xFF
  }

  predicate IsBreak(b: byte)
  {
    b == CR || b == LF
  }

  /** No byte of `s` ends a line. */
  predicate LineSafe(s: seq<byte>)
  {
    forall i :: 0 <= i < |s| ==> !EndsLine(s[i])
  }

  /** The index of the first line-ending byte at or after `pos`, or the end. */
  function LineEnd(input: seq<byte>, pos: nat): (e: nat)
    requires pos <= |input|
    ensures pos <= e <= |input|
    ensures forall i :: pos <= i < e ==> !EndsLine(input[i])
    ensures e < |input| ==> EndsLine(input[e])
    decreases |input| - pos
  {
    if pos == |input| || EndsLine(input[pos]) then pos else LineEnd(input, pos + 1)
  }

  /** The index of the first byte at or after `pos` that is not CR or LF. */
  function SkipBreaks(input: seq<byte>, pos: nat): (e: nat)
    requires pos <= |input|
    ensures pos <= e <= |input|
    ensures forall i :: pos <= i < e ==> IsBreak(input[i])
    ensures e < |input| ==> !IsBreak(input[e])
    decreases |input| - pos
  {
    if pos == |input| || !IsBreak(input[pos]) then pos else SkipBreaks(input, pos + 1)
  }

  /** One line read at `pos`: its bytes, and where the next read starts,
      after the terminator (when it was a byte, not EOF) and the run of CR
      and LF that follows it. */
  function ReadLine(input: seq<byte>, pos: nat): (r: (seq<byte>, nat))
    requires pos <= |input|
    ensures r.1 <= |input|
  {
    var e := LineEnd(input, pos);
    (input[pos..e], SkipBreaks(input, if e < |input| then e + 1 else e))
  }

  /** glueGetLine(in, outString): append bytes up to the first line ender,
      consume it, then consume every CR and LF that follows. */
  method GlueGetLine(input: seq<byte>, pos: nat, outString: seq<byte>) returns (line: seq<byte>, next: nat)
    requires pos <= |input|
    ensures line == outString + ReadLine(input, pos).0
    ensures next == ReadLine(input, pos).1
  {
    line := outString;
    var i := pos;
    while i < |input| && !EndsLine(input[i])
      invariant pos <= i <= |input|
      invariant LineEnd(input, i) == LineEnd(input, pos)
      invariant line == outString + input[pos..i]
    {
      assert input[pos..i + 1] == input[pos..i] + [input[i]];
      line := line + [input[i]];
      i := i + 1;
    }
    assert LineEnd(input, pos) == i;
    next := SkipLineBreaks(input, if i < |input| then i + 1 else i);
  }

  /** The second loop of glueGetLine: peek, and consume while the next byte
      is CR or LF. */
  method SkipLineBreaks(input: seq<byte>, start: nat) returns (next: nat)
    requires start <= |input|
    ensures next == SkipBreaks(input, start)
  {
    next := start;
    while next < |input| && IsBreak(input[next])
      invariant start <= next <= |input|
      invariant SkipBreaks(input, next) == SkipBreaks(input, start)
    {
      next := next + 1;
    }
  }

  /** Address, player name and password. */
  datatype Connection = Connection(address: seq<byte>, playerName: seq<byte>, password: seq<byte>)

  /** The settings used when there is no saved file:
      "archipelago.gg:38281", "Player1" and no password. */
  function DefaultConnection(): Connection
  {
    Connection(Ascii("archipelago.gg:38281"), Ascii("Player1"), [])
  }

  /** What rando_get_saved_apconnect reads: the defaults when the file
      cannot be opened, else three lines. */
  function ReadSavedConnection(file: Option<seq<byte>>): Connection
  {
    match file
    case None => DefaultConnection()
    case Some(f) =>
      var (address, p1) := ReadLine(f, 0);
      var (playerName, p2) := ReadLine(f, p1);
      var (password, _) := ReadLine(f, p2);
      Connection(address, playerName, password)
  }

  /** The reading part of rando_get_saved_apconnect. */
  method LoadSavedConnection(file: Option<seq<byte>>) returns (conn: Connection)
    ensures conn == ReadSavedConnection(file)
  {
    var address := Ascii("archipelago.gg:38281");
    var playerName := Ascii("Player1");
    var password := [];
    if file.Some? {
      address := [];
      playerName := [];
      var p;
      address, p := GlueGetLine(file.value, 0, address);
      playerName, p := GlueGetLine(file.value, p, playerName);
      password, p := GlueGetLine(file.value, p, password);
    }
    conn := Connection(address, playerName, password);
  }

  /** What rando_set_saved_apconnect writes: each field followed by '\n'. */
  function SavedConnectionFile(conn: Connection): seq<byte>
  {
    conn.address + [LF] + conn.playerName + [LF] + conn.password + [LF]
  }

  /** A line-safe field followed by LF at `start` is read as that field; the
      next read starts after the LF and any CR or LF that follows. */
  lemma ReadLineField(input: seq<byte>, start: nat, field: seq<byte>)
    requires LineSafe(field)
    requires start + |field| < |input|
    requires input[start..start + |field|] == field && input[start + |field|] == LF
    ensures ReadLine(input, start) == (field, SkipBreaks(input, start + |field| + 1))
  {
    assert forall i :: start <= i < start + |field| ==> input[i] == field[i - start];
  }

  /** The three lines of a saved file, where they start and end. */
  lemma SavedConnectionLayout(conn: Connection)
    ensures var f := SavedConnectionFile(conn);
      var a, n, pw := conn.address, conn.playerName, conn.password;
      && |f| == |a| + |n| + |pw| + 3
      && f[..|a|] == a && f[|a|] == LF
      && f[|a| + 1..|a| + 1 + |n|] == n && f[|a| + 1 + |n|] == LF
      && f[|a| + |n| + 2..|a| + |n| + 2 + |pw|] == pw && f[|a| + |n| + 2 + |pw|] == LF
  {
  }

  /** Writing the settings and reading them back gives the same settings,
      provided no field holds a line ender and an empty player name is not
      followed by a password. */
  lemma {:induction false} SavedConnectionRoundTrip(conn: Connection)
    requires LineSafe(conn.address) && LineSafe(conn.playerName) && LineSafe(conn.password)
    requires conn.playerName == [] ==> conn.password == []
    ensures ReadSavedConnection(Some(SavedConnectionFile(conn))) == conn
  {
    var f := SavedConnectionFile(conn);
    var (a, p1) := ReadLine(f, 0);
    var (n, p2) := ReadLine(f, p1);
    var (pw, p3) := ReadLine(f, p2);
    ReadFields(conn);
    assert ReadSavedConnection(Some(f)) == Connection(a, n, pw);
  }

  /** The three reads of a saved file, field by field. */
  lemma {:induction false} ReadFields(conn: Connection)
    requires LineSafe(conn.address) && LineSafe(conn.playerName) && LineSafe(conn.password)
    requires conn.playerName == [] ==> conn.password == []
    ensures var f := SavedConnectionFile(conn);
      var p1 := ReadLine(f, 0).1;
      var p2 := ReadLine(f, p1).1;
      ReadLine(f, 0).0 == conn.address && ReadLine(f, p1).0 == conn.playerName && ReadLine(f, p2).0 == conn.password
  {
    var a, n := conn.address, conn.playerName;
    var f := SavedConnectionFile(conn);
    SavedConnectionLayout(conn);
    ReadLineField(f, 0, a);
    if n != [] {
      assert ReadLine(f, 0).1 == |a| + 1;
      ReadLaterFields(conn);
    } else {
      assert ReadLine(f, 0).1 == |f|;
    }
  }

  /** The second and third reads, when the player name is not empty. */
  lemma {:induction false} ReadLaterFields(conn: Connection)
    requires LineSafe(conn.playerName) && LineSafe(conn.password) && conn.playerName != []
    ensures var f := SavedConnectionFile(conn);
      var p1 := |conn.address| + 1;
      var p2 := ReadLine(f, p1).1;
      ReadLine(f, p1).0 == conn.playerName && ReadLine(f, p2).0 == conn.password
  {
    SavedConnectionLayout(conn);
    ReadLastTwoLines(SavedConnectionFile(conn), |conn.address| + 1, conn.playerName, conn.password);
  }

  /** Two line-safe fields, each followed by LF, at the end of the input:
      the first is read at `start` and the second where that read stops. */
  lemma {:induction false} ReadLastTwoLines(f: seq<byte>, start: nat, n: seq<byte>, pw: seq<byte>)
    requires LineSafe(n) && LineSafe(pw) && n != []
    requires |f| == start + |n| + |pw| + 2
    requires f[start..start + |n|] == n && f[start + |n|] == LF
    requires f[start + |n| + 1..start + |n| + 1 + |pw|] == pw && f[start + |n| + 1 + |pw|] == LF
    ensures ReadLine(f, start).0 == n && ReadLine(f, ReadLine(f, start).1).0 == pw
  {
    ReadLineField(f, start, n);
    var p2 := ReadLine(f, start).1;
    if pw != [] {
      assert f[start + |n| + 1] == pw[0];
      assert p2 == start + |n| + 1;
      ReadLineField(f, p2, pw);
    } else {
      assert p2 == |f|;
    }
  }

  /** The condition on an empty player name is needed: with an empty name the
      blank line is swallowed and the password is read as the player name. */
  lemma {:induction false} EmptyPlayerNameShiftsPassword(address: seq<byte>, password: seq<byte>)
    requires LineSafe(address) && LineSafe(password) && password != []
    ensures ReadSavedConnection(Some(SavedConnectionFile(Connection(address, [], password))))
      == Connection(address, password, [])
  {
    var conn := Connection(address, [], password);
    var f := SavedConnectionFile(conn);
    SavedConnectionLayout(conn);
    ReadLineField(f, 0, address);
    assert SkipBreaks(f, |address| + 1) == |address| + 2;
    ReadLineField(f, |address| + 2, password);
  }
}
