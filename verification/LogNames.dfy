/** Names of the rotating log files and the test that recognises them in a directory listing. */
module LogNames {

  const NUL: char := '\0'
  const LOG_NAME: string := "wdlog"
  const LOG_SUFFIX: string := "log"
  const NAME_BUFFER := 256

  /** The text printf's "%d" produces for a number that is not negative. */
  function Decimal(n: nat): string {
    if n < 10 then ['0' + n as char] else Decimal(n / 10) + Decimal(n % 10)
  }

  /** The name of slot `i`, below the fixed log directory. */
  function LogFileName(i: nat): string {
    LOG_NAME + Decimal(i) + "." + LOG_SUFFIX
  }

  /** The C string at the start of a character buffer. */
  function CString(buffer: string): string
    requires NUL in buffer
  {
    if buffer[0] == NUL then "" else [buffer[0]] + CString(buffer[1..])
  }

  /** strncmp on two buffers; neither is read past its terminator. */
  function StrNCmp(a: string, b: string, n: nat): int
    requires NUL in a && NUL in b
  {
    if n == 0 then 0
    else if a[0] != b[0] then a[0] as int - b[0] as int
    else if a[0] == NUL then 0
    else StrNCmp(a[1..], b[1..], n - 1)
  }

  lemma StrNCmpOneMore(a: string, s: string)
    requires NUL in a && s != "" && NUL !in s && a[0] == s[0]
    ensures NUL in a[1..] && NUL !in s[1..]
    ensures StrNCmp(a, s + [NUL], |s|) == StrNCmp(a[1..], s[1..] + [NUL], |s[1..]|)
    ensures CString(a) == [a[0]] + CString(a[1..])
  {
    assert (s + [NUL])[1..] == s[1..] + [NUL];
  }

  lemma PrefixOneMore(s: string, long: string, rest: string)
    requires s != "" && long == [s[0]] + rest
    ensures s <= long <==> s[1..] <= rest
  {
    assert s == [s[0]] + s[1..];
    assert long[1..] == rest;
  }

  /** Comparing the first |s| characters with `s` tests for the prefix `s`. */
  lemma {:induction false} StrNCmpTestsPrefix(a: string, s: string)
    requires NUL in a && NUL !in s
    ensures StrNCmp(a, s + [NUL], |s|) == 0 <==> s <= CString(a)
    ensures StrNCmp(a, s + [NUL], |s|) == 0 ==> |s| < |a| && s == a[..|s|] && NUL in a[|s|..]
  {
    if s != "" {
      assert s == [s[0]] + s[1..];
      if a[0] == s[0] {
        StrNCmpTestsPrefix(a[1..], s[1..]);
        StrNCmpOneMore(a, s);
        PrefixOneMore(s, CString(a), CString(a[1..]));
        hide StrNCmp, CString;
        if s[1..] <= CString(a[1..]) {
          assert a[..|s|] == [a[0]] + a[1..][..|s[1..]|];
          assert a[|s|..] == a[1..][|s[1..]|..];
        }
      }
    }
  }

  /** The filter applied to every directory entry: a digit and a dot after the
      base name, then the two literal parts. */
  predicate CheckLogFile(dName: string, fileNameLen: nat, fileSuffixLen: nat)
    requires fileNameLen == |LOG_NAME| && fileSuffixLen == |LOG_SUFFIX|
    requires |dName| == NAME_BUFFER && NUL in dName
  {
    if dName[fileNameLen] > '9' || dName[fileNameLen] < '0' || dName[fileNameLen + 1] != '.' then false
    else
      StrNCmpTestsPrefix(dName, LOG_NAME);
      && StrNCmp(dName, LOG_NAME + [NUL], fileNameLen) == 0
      && (TerminatorAfter(dName, fileNameLen);
          StrNCmp(dName[fileNameLen + 2..], LOG_SUFFIX + [NUL], fileSuffixLen) == 0)
  }

  lemma TerminatorAfter(dName: string, k: nat)
    requires k + 2 <= |dName| && NUL in dName[k..] && dName[k] != NUL && dName[k + 1] != NUL
    ensures NUL in dName[k + 2..]
  {
    var i :| 0 <= i < |dName[k..]| && dName[k..][i] == NUL;
    assert dName[k + 2..][i - 2] == NUL;
  }

  /** `name` starts with the name of slot `i`, so the scan counts it as that slot. */
  predicate Claims(name: string, i: int) {
    0 <= i < 10 && LogFileName(i) <= name
  }

  lemma SlotNameShape(i: nat)
    requires i < 10
    ensures |LogFileName(i)| == 10
    ensures LogFileName(i)[..5] == LOG_NAME && LogFileName(i)[5] == '0' + i as char
    ensures LogFileName(i)[6] == '.' && LogFileName(i)[7..] == LOG_SUFFIX
  {
  }

  /** The names of the ten slots. */
  lemma SlotNameIs(i: nat)
    requires i < 10
    ensures LogFileName(i) == "wdlog" + ['0' + i as char] + ".log"
  {
    SlotNameShape(i);
  }

  /** Different slots have different names, and a slot's name claims only that slot. */
  lemma SlotNamesDiffer(i: nat, j: nat)
    requires i < 10 && j < 10
    ensures Claims(LogFileName(i), j) <==> i == j
    ensures LogFileName(i) == LogFileName(j) <==> i == j
  {
    SlotNameShape(i);
    SlotNameShape(j);
  }

  lemma ClaimByParts(name: string, i: nat)
    requires i < 10
    ensures Claims(name, i) <==>
            |name| >= 10 && name[..5] == LOG_NAME && name[5] == '0' + i as char && name[6] == '.' && name[7..10] == LOG_SUFFIX
  {
    SlotNameShape(i);
    var f := LogFileName(i);
    assert f == f[..5] + [f[5]] + [f[6]] + f[7..];
    if |name| >= 10 {
      assert name[..10] == name[..5] + [name[5]] + [name[6]] + name[7..10];
    }
  }

  lemma {:induction false} CStringAt(a: string, k: nat)
    requires NUL in a && k <= |a| && NUL !in a[..k]
    ensures NUL in a[k..] && CString(a) == a[..k] + CString(a[k..])
  {
    if k != 0 {
      assert a[..k][0] == a[0];
      assert a[1..][..k - 1] == a[..k][1..];
      CStringAt(a[1..], k - 1);
      assert a[1..][k - 1..] == a[k..];
      assert a[..k] == [a[0]] + a[1..][..k - 1];
    } else {
      assert a[0..] == a;
    }
  }

  /** The filter accepts exactly the names that start with a slot's name, whatever
      follows the terminator in the buffer, and the digit it leaves is that slot's index. */
  lemma CheckLogFileIff(dName: string)
    requires |dName| == NAME_BUFFER && NUL in dName
    ensures CheckLogFile(dName, |LOG_NAME|, |LOG_SUFFIX|) <==> exists i :: Claims(CString(dName), i)
    ensures forall i :: Claims(CString(dName), i) ==> dName[|LOG_NAME|] as int - '0' as int == i
  {
    forall i | Claims(CString(dName), i)
      ensures CheckLogFile(dName, |LOG_NAME|, |LOG_SUFFIX|)
      ensures dName[|LOG_NAME|] as int - '0' as int == i
    {
      ClaimIsAccepted(dName, i);
    }
    var i := dName[|LOG_NAME|] as int - '0' as int;
    if CheckLogFile(dName, |LOG_NAME|, |LOG_SUFFIX|) {
      AcceptedIsClaim(dName);
      assert Claims(CString(dName), i);
    }
    hide CheckLogFile, LogFileName, CString;
  }

  /** Round trip of a slot's name: whatever the rest of the entry's buffer holds, the name built for
      slot `i` is accepted and its digit reads `i` again. */
  lemma SlotNameRoundTrip(i: nat, rest: string)
    requires i < 10 && |LogFileName(i)| + 1 + |rest| == NAME_BUFFER
    ensures var dName := LogFileName(i) + [NUL] + rest;
            && CString(dName) == LogFileName(i)
            && CheckLogFile(dName, |LOG_NAME|, |LOG_SUFFIX|)
            && dName[|LOG_NAME|] as int - '0' as int == i
  {
    var name := LogFileName(i);
    var dName := name + [NUL] + rest;
    SlotNameShape(i);
    assert name == name[..5] + [name[5]] + [name[6]] + name[7..];
    assert dName[..|name|] == name && dName[|name|] == NUL;
    CStringAt(dName, |name|);
    assert CString(dName[|name|..]) == "";
    SlotNamesDiffer(i, i);
    ClaimIsAccepted(dName, i);
  }

  lemma ClaimIsAccepted(dName: string, i: int)
    requires |dName| == NAME_BUFFER && NUL in dName && Claims(CString(dName), i)
    ensures CheckLogFile(dName, |LOG_NAME|, |LOG_SUFFIX|) && dName[|LOG_NAME|] as int - '0' as int == i
  {
    var name := CString(dName);
    ClaimByParts(name, i);
    hide Claims, LogFileName;
    PrefixOfCString(dName, 10);
    StrNCmpTestsPrefix(dName, LOG_NAME);
    assert NUL !in dName[..7] by { assert dName[..7] == name[..7]; NoTerminator(dName); }
    CStringAt(dName, 7);
    assert name[7..] == CString(dName[7..]);
    assert LOG_SUFFIX <= name[7..];
    StrNCmpTestsPrefix(dName[7..], LOG_SUFFIX);
  }

  /** What the filter has seen of an entry it accepts. */
  lemma AcceptedParts(dName: string)
    requires |dName| == NAME_BUFFER && NUL in dName && CheckLogFile(dName, |LOG_NAME|, |LOG_SUFFIX|)
    ensures dName[..5] == LOG_NAME && '0' <= dName[5] <= '9' && dName[6] == '.'
    ensures NUL in dName[7..] && LOG_SUFFIX <= CString(dName[7..])
  {
    StrNCmpTestsPrefix(dName, LOG_NAME);
    TerminatorAfter(dName, 5);
    StrNCmpTestsPrefix(dName[7..], LOG_SUFFIX);
    hide StrNCmp, CString;
  }

  lemma AcceptedIsClaim(dName: string)
    requires |dName| == NAME_BUFFER && NUL in dName && CheckLogFile(dName, |LOG_NAME|, |LOG_SUFFIX|)
    ensures Claims(CString(dName), dName[|LOG_NAME|] as int - '0' as int)
  {
    hide CheckLogFile, CString, LogFileName, Claims;
    AcceptedParts(dName);
    assert NUL !in dName[..7] by {
      assert dName[..7] == dName[..5] + [dName[5]] + [dName[6]];
    }
    CStringAt(dName, 7);
    var name, rest := CString(dName), CString(dName[7..]);
    assert name[..5] == dName[..5] && name[7..10] == rest[..3];
    ClaimByParts(name, dName[5] as int - '0' as int);
  }

  lemma {:induction false} NoTerminator(a: string)
    requires NUL in a
    ensures NUL !in CString(a)
  {
    if a[0] != NUL { NoTerminator(a[1..]); }
  }

  lemma {:induction false} PrefixOfCString(a: string, k: nat)
    requires NUL in a && k <= |CString(a)|
    ensures k < |a| && a[..k] == CString(a)[..k]
  {
    if k != 0 {
      PrefixOfCString(a[1..], k - 1);
      assert a[..k] == [a[0]] + a[1..][..k - 1];
    }
  }
}
