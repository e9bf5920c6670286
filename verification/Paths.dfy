/** Reducing a path to its last segment, and when that is what happens. */
module Paths {
  import opened Basics

  /** `s.replace("\\\\", "/")`: each pair of backslashes becomes one slash. */
  function ReplacePairs(s: string): string {
    if |s| >= 2 && s[0] == '\\' && s[1] == '\\' then "/" + ReplacePairs(s[2..])
    else if s == "" then ""
    else [s[0]] + ReplacePairs(s[1..])
  }

  /** `s.rstrip("/")`. */
  function TrimSlashes(s: string): string
    decreases |s|
  {
    if s != "" && Last(s) == '/' then TrimSlashes(Front(s)) else s
  }

  function Normal(s: string): string {
    TrimSlashes(ReplacePairs(s))
  }

  const PREFIX := "<path>/"

  predicate EndsWith(s: string, t: string) {
    |t| <= |s| && s[|s| - |t|..] == t
  }

  /** What the platform's `os.path.basename` is relied on for. */
  ghost predicate Lawful(base: string -> string) {
    (forall s :: NamesLast(base, s)) && base("<path>") == "<path>"
  }

  /** The base name is an end of the path, one segment, and its own base name. */
  ghost predicate NamesLast(base: string -> string, s: string) {
    EndsWith(s, base(s)) && '/' !in base(s) && base(PREFIX + base(s)) == base(s)
  }

  function RedactPath(base: string -> string, s: string): string {
    PREFIX + base(Normal(s))
  }

  ghost predicate NoPairs(s: string) {
    forall i :: 0 <= i < |s| - 1 ==> !(s[i] == '\\' && s[i + 1] == '\\')
  }

  lemma {:induction false} ReplacingLeavesNoPairs(s: string)
    ensures NoPairs(ReplacePairs(s))
    ensures ReplacePairs(s) != "" && ReplacePairs(s)[0] == '\\' ==> s[0] == '\\' && (|s| == 1 || s[1] != '\\')
    ensures s != "" ==> ReplacePairs(s) != ""
    decreases |s|
  {
    if |s| >= 2 && s[0] == '\\' && s[1] == '\\' {
      ReplacingLeavesNoPairs(s[2..]);
    } else if s != "" {
      ReplacingLeavesNoPairs(s[1..]);
    }
  }

  lemma {:induction false} NoPairsIsKept(s: string)
    requires NoPairs(s)
    ensures ReplacePairs(s) == s
    decreases |s|
  {
    if s != "" {
      forall i | 0 <= i < |s| - 2 ensures !(s[1..][i] == '\\' && s[1..][i + 1] == '\\') {
        assert s[1..][i] == s[i + 1];
      }
      NoPairsIsKept(s[1..]);
    }
  }

  lemma {:induction false} TrimIsPrefix(s: string)
    ensures TrimSlashes(s) <= s && (NoPairs(s) ==> NoPairs(TrimSlashes(s)))
    decreases |s|
  {
    if s != "" && Last(s) == '/' {
      TrimIsPrefix(Front(s));
    }
  }

  lemma EndHasNoPairs(s: string, t: string)
    requires EndsWith(s, t) && NoPairs(s)
    ensures NoPairs(t)
  {
    var skip := |s| - |t|;
    forall i | 0 <= i < |t| - 1 ensures !(t[i] == '\\' && t[i + 1] == '\\') {
      assert t[i] == s[skip + i] && t[i + 1] == s[skip + i + 1];
    }
  }

  lemma PrefixAddsNoPairs(t: string)
    requires NoPairs(t)
    ensures NoPairs(PREFIX + t)
  {
    var s := PREFIX + t;
    forall i | 0 <= i < |s| - 1 ensures !(s[i] == '\\' && s[i + 1] == '\\') {
      if i >= 7 { assert s[i] == t[i - 7] && s[i + 1] == t[i - 6]; }
    }
  }

  /** The last segment survives a second redaction when there is one, and only then. */
  lemma PathRedactsOnce(base: string -> string, s: string)
    requires Lawful(base)
    ensures RedactPath(base, RedactPath(base, s)) == RedactPath(base, s) <==> base(Normal(s)) != ""
  {
    assert NamesLast(base, Normal(s));
    var name := base(Normal(s));
    var once := PREFIX + name;
    ReplacingLeavesNoPairs(s);
    TrimIsPrefix(ReplacePairs(s));
    EndHasNoPairs(Normal(s), name);
    PrefixAddsNoPairs(name);
    NoPairsIsKept(once);
    if name != "" {
      assert Last(once) == Last(name) && Last(name) in name;
    } else {
      assert once == PREFIX && Front(PREFIX) == "<path>";
      assert TrimSlashes("<path>") == "<path>";
      assert |RedactPath(base, once)| == 13;
    }
  }

  /** The text after the last separator. */
  function AfterLast(s: string, separators: set<char>): string
    decreases |s|
  {
    if s == "" || Last(s) in separators then "" else AfterLast(Front(s), separators) + [Last(s)]
  }

  function PosixBasename(s: string): string {
    AfterLast(s, {'/'})
  }

  /** Both separators, and a drive letter. Network-share prefixes are not told apart. */
  function WindowsBasename(s: string): string {
    AfterLast(PastDrive(s), {'/', '\\'})
  }

  predicate HasDrive(s: string) {
    |s| >= 2 && s[1] == ':' && s[0] != '/' && s[0] != '\\'
  }

  function PastDrive(s: string): string {
    if HasDrive(s) then s[2..] else s
  }

  lemma {:induction false} AfterLastEnds(s: string, separators: set<char>)
    ensures EndsWith(s, AfterLast(s, separators))
    ensures forall c :: c in AfterLast(s, separators) ==> c !in separators
    decreases |s|
  {
    if s != "" && Last(s) !in separators {
      AfterLastEnds(Front(s), separators);
      var t := AfterLast(Front(s), separators);
      assert s[|s| - |t| - 1..] == Front(s)[|s| - 1 - |t|..] + [Last(s)];
    }
  }

  lemma {:induction false} AfterLastSkips(p: string, t: string, separators: set<char>)
    requires p == "" || Last(p) in separators
    requires forall c :: c in t ==> c !in separators
    ensures AfterLast(p + t, separators) == t
    decreases |t|
  {
    if t == "" {
      assert p + t == p;
    } else {
      assert Front(p + t) == p + Front(t) && Last(p + t) == Last(t) && Last(t) in t;
      assert forall c :: c in Front(t) ==> c in t;
      AfterLastSkips(p, Front(t), separators);
    }
  }

  lemma PosixIsLawful()
    ensures Lawful(PosixBasename)
  {
    forall s ensures NamesLast(PosixBasename, s) {
      AfterLastEnds(s, {'/'});
      AfterLastSkips(PREFIX, PosixBasename(s), {'/'});
    }
    AfterLastSkips("", "<path>", {'/'});
    assert "" + "<path>" == "<path>";
  }

  lemma PastDriveEnds(s: string, t: string)
    requires EndsWith(PastDrive(s), t)
    ensures EndsWith(s, t)
  {
    var rest := PastDrive(s);
    assert s[|s| - |rest|..] == rest;
    assert s[|s| - |t|..] == rest[|rest| - |t|..];
  }

  lemma WindowsNamesLast(s: string)
    ensures NamesLast(WindowsBasename, s) && '\\' !in WindowsBasename(s)
  {
    var name := AfterLast(PastDrive(s), {'/', '\\'});
    AfterLastEnds(PastDrive(s), {'/', '\\'});
    PastDriveEnds(s, name);
    assert PastDrive(PREFIX + name) == PREFIX + name;
    AfterLastSkips(PREFIX, name, {'/', '\\'});
  }

  lemma WindowsIsLawful()
    ensures Lawful(WindowsBasename)
  {
    forall s ensures NamesLast(WindowsBasename, s) { WindowsNamesLast(s); }
    AfterLastSkips("", "<path>", {'/', '\\'});
    assert "" + "<path>" == "<path>";
  }

  // ---- once or twice ----

  lemma {:induction false} TrimLeavesNoSlash(s: string)
    ensures TrimSlashes(s) != "" ==> Last(TrimSlashes(s)) != '/'
    ensures TrimSlashes(s) == "" <==> forall i :: 0 <= i < |s| ==> s[i] == '/'
    decreases |s|
  {
    if s != "" && Last(s) == '/' {
      TrimLeavesNoSlash(Front(s));
      assert forall i :: 0 <= i < |s| - 1 ==> s[i] == Front(s)[i];
    }
  }

  lemma AfterLastNames(t: string, separators: set<char>)
    requires t != "" && Last(t) !in separators
    ensures AfterLast(t, separators) != ""
  {
    assert |AfterLast(t, separators)| == |AfterLast(Front(t), separators)| + 1;
  }

  lemma PosixNames(s: string)
    ensures PosixBasename(Normal(s)) != "" <==> exists i :: 0 <= i < |ReplacePairs(s)| && ReplacePairs(s)[i] != '/'
  {
    var t := ReplacePairs(s);
    TrimLeavesNoSlash(t);
    if Normal(s) != "" {
      AfterLastNames(Normal(s), {'/'});
      assert PosixBasename(Normal(s)) == AfterLast(Normal(s), {'/'}) != "";
      assert !forall i :: 0 <= i < |t| ==> t[i] == '/';
      var i :| 0 <= i < |t| && t[i] != '/';
    } else {
      assert PosixBasename("") == "";
    }
  }

  lemma WindowsNames(s: string)
    ensures WindowsBasename(Normal(s)) != "" <==> PastDrive(Normal(s)) != "" && Last(Normal(s)) != '\\'
  {
    TrimLeavesNoSlash(ReplacePairs(s));
    var t := PastDrive(Normal(s));
    if t != "" {
      assert Last(t) == Last(Normal(s));
      if Last(t) != '\\' { AfterLastNames(t, {'/', '\\'}); }
    }
  }

  /** On POSIX a path redacts once exactly when something in it is not a slash, doubled backslashes
      counting as slashes. */
  lemma PosixRedactsOnce(s: string)
    ensures RedactPath(PosixBasename, RedactPath(PosixBasename, s)) == RedactPath(PosixBasename, s) <==>
            exists i :: 0 <= i < |ReplacePairs(s)| && ReplacePairs(s)[i] != '/'
  {
    PosixIsLawful();
    PathRedactsOnce(PosixBasename, s);
    PosixNames(s);
  }

  /** On Windows it does exactly when something follows the drive and does not end in a backslash. */
  lemma WindowsRedactsOnce(s: string)
    ensures RedactPath(WindowsBasename, RedactPath(WindowsBasename, s)) == RedactPath(WindowsBasename, s) <==>
            PastDrive(Normal(s)) != "" && Last(Normal(s)) != '\\'
  {
    WindowsIsLawful();
    PathRedactsOnce(WindowsBasename, s);
    WindowsNames(s);
  }

  /** The empty path changes on the second pass, on either platform. */
  lemma EmptyPathChanges(base: string -> string)
    requires Lawful(base)
    ensures RedactPath(base, "") == "<path>/"
    ensures RedactPath(base, RedactPath(base, "")) == "<path>/<path>"
  {
    assert NamesLast(base, "");
    assert base("") == "" && RedactPath(base, "") == PREFIX;
    NamelessChanges(base);
  }

  lemma NamelessChanges(base: string -> string)
    requires Lawful(base)
    ensures RedactPath(base, PREFIX) == "<path>/<path>"
  {
    PrefixAddsNoPairs("");
    assert PREFIX + "" == PREFIX;
    NoPairsIsKept(PREFIX);
    assert Front(PREFIX) == "<path>" && TrimSlashes("<path>") == "<path>";
  }

  /** So does a directory written with a trailing backslash, on Windows: its name is lost at once. */
  lemma TrailingBackslashChanges()
    ensures RedactPath(WindowsBasename, "C:\\a\\") == "<path>/"
    ensures RedactPath(WindowsBasename, RedactPath(WindowsBasename, "C:\\a\\")) == "<path>/<path>"
  {
    var s := "C:\\a\\";
    assert NoPairs(s);
    NoPairsIsKept(s);
    assert Normal(s) == s && PastDrive(s) == "\\a\\" && Last(PastDrive(s)) == '\\';
    assert RedactPath(WindowsBasename, s) == PREFIX;
    WindowsIsLawful();
    NamelessChanges(WindowsBasename);
  }

  // ---- the last segment, whichever way it is written ----

  const BOTH: set<char> := {'/', '\\'}

  function ToSlashes(s: string): string {
    if s == "" then "" else [if s[0] == '\\' then '/' else s[0]] + ToSlashes(s[1..])
  }

  /** What is promised of a path: separators are normalised first, and its last segment is kept. */
  function LastSegment(s: string): string {
    AfterLast(TrimSlashes(ToSlashes(s)), {'/'})
  }

  /** The last non-empty segment read so far, and whether a separator has closed it. */
  datatype Seg = Seg(text: string, closed: bool)

  function ReadChar(st: Seg, c: char, separators: set<char>): Seg {
    if c in separators then Seg(st.text, true)
    else if st.closed then Seg([c], false)
    else Seg(st.text + [c], false)
  }

  function Scan(s: string, separators: set<char>): Seg
    decreases |s|
  {
    if s == "" then Seg("", false) else ReadChar(Scan(Front(s), separators), Last(s), separators)
  }

  function ScanOn(st: Seg, s: string, separators: set<char>): Seg
    decreases |s|
  {
    if s == "" then st else ScanOn(ReadChar(st, s[0], separators), s[1..], separators)
  }

  lemma {:induction false} ScanOnOneMore(st: Seg, s: string, c: char, separators: set<char>)
    ensures ScanOn(st, s + [c], separators) == ReadChar(ScanOn(st, s, separators), c, separators)
    decreases |s|
  {
    if s == "" {
      assert (s + [c])[1..] == "";
    } else {
      assert (s + [c])[1..] == s[1..] + [c];
      ScanOnOneMore(ReadChar(st, s[0], separators), s[1..], c, separators);
    }
  }

  lemma {:induction false} ScanEitherEnd(s: string, separators: set<char>)
    ensures Scan(s, separators) == ScanOn(Seg("", false), s, separators)
    decreases |s|
  {
    if s != "" {
      ScanEitherEnd(Front(s), separators);
      ScanOnOneMore(Seg("", false), Front(s), Last(s), separators);
      assert Front(s) + [Last(s)] == s;
    }
  }

  /** A pair of separators reads like one, so replacing pairs changes no segment. */
  lemma {:induction false} ScanOnReplaced(st: Seg, s: string)
    ensures ScanOn(st, ReplacePairs(s), BOTH) == ScanOn(st, s, BOTH)
    decreases |s|
  {
    if |s| >= 2 && s[0] == '\\' && s[1] == '\\' {
      var once := ReadChar(st, '\\', BOTH);
      assert ReplacePairs(s)[1..] == ReplacePairs(s[2..]) && s[1..][1..] == s[2..];
      assert ReadChar(once, '\\', BOTH) == once == ReadChar(st, '/', BOTH);
      ScanOnReplaced(once, s[2..]);
    } else if s != "" {
      assert ReplacePairs(s)[1..] == ReplacePairs(s[1..]);
      ScanOnReplaced(ReadChar(st, s[0], BOTH), s[1..]);
    }
  }

  lemma {:induction false} ScanOnSlashes(st: Seg, s: string)
    ensures ScanOn(st, ToSlashes(s), {'/'}) == ScanOn(st, s, BOTH)
    decreases |s|
  {
    if s != "" {
      assert ToSlashes(s)[1..] == ToSlashes(s[1..]);
      ScanOnSlashes(ReadChar(st, s[0], BOTH), s[1..]);
    }
  }

  lemma {:induction false} ScanTrimmed(s: string, separators: set<char>)
    requires '/' in separators
    ensures Scan(TrimSlashes(s), separators).text == Scan(s, separators).text
    decreases |s|
  {
    if s != "" && Last(s) == '/' { ScanTrimmed(Front(s), separators); }
  }

  /** Where no separator ends the path, the text after the last one is its last segment. */
  lemma {:induction false} ScanIsAfterLast(s: string, separators: set<char>)
    requires s != "" ==> Last(s) !in separators
    ensures Scan(s, separators).text == AfterLast(s, separators)
    decreases |s|
  {
    if s != "" && Front(s) != "" && Last(Front(s)) !in separators { ScanIsAfterLast(Front(s), separators); }
  }

  lemma {:induction false} ScanHasNoSeparator(s: string, separators: set<char>)
    ensures forall c :: c in Scan(s, separators).text ==> c !in separators
    ensures Scan(s, separators).text == "" <==> forall i :: 0 <= i < |s| ==> s[i] in separators
    decreases |s|
  {
    if s != "" {
      ScanHasNoSeparator(Front(s), separators);
      assert forall i :: 0 <= i < |s| - 1 ==> s[i] == Front(s)[i];
    }
  }

  /** The segment promised of the path as given is the one its normalised form still holds. */
  lemma LastSegmentOfNormal(s: string)
    ensures LastSegment(s) == Scan(Normal(s), BOTH).text
  {
    var slashed := ToSlashes(s);
    TrimLeavesNoSlash(slashed);
    ScanIsAfterLast(TrimSlashes(slashed), {'/'});
    ScanTrimmed(slashed, {'/'});
    ScanEitherEnd(slashed, {'/'});
    ScanOnSlashes(Seg("", false), s);
    ScanOnReplaced(Seg("", false), s);
    ScanEitherEnd(ReplacePairs(s), BOTH);
    ScanTrimmed(ReplacePairs(s), BOTH);
  }

  /** Every backslash has a slash somewhere after it. */
  predicate Covered(t: string) {
    forall i :: 0 <= i < |t| && t[i] == '\\' ==> '/' in t[i..]
  }

  lemma {:induction false} CutHoldsNoBackslash(t: string)
    ensures '\\' !in AfterLast(t, {'/'}) <==> Covered(t)
    decreases |t|
  {
    if t != "" {
      var n := |t| - 1;
      if Last(t) == '/' {
        forall i | 0 <= i < |t| ensures '/' in t[i..] { assert t[i..][n - i] == '/'; }
      } else if Last(t) == '\\' {
        assert t[n..] == "\\" && '\\' == AfterLast(t, {'/'})[|AfterLast(t, {'/'})| - 1];
      } else {
        CutHoldsNoBackslash(Front(t));
        forall i | 0 <= i < n ensures t[i] == Front(t)[i] && ('/' in t[i..] <==> '/' in Front(t)[i..]) {
          assert t[i..] == Front(t)[i..] + [Last(t)];
        }
      }
    }
  }

  lemma {:induction false} FewerSeparators(t: string)
    requires '\\' !in AfterLast(t, {'/'})
    ensures AfterLast(t, {'/'}) == AfterLast(t, {'/', '\\'})
    decreases |t|
  {
    if t != "" && Last(t) != '/' {
      var cut := AfterLast(t, {'/'});
      assert Last(cut) == Last(t) && Last(cut) in cut;
      assert forall c :: c in AfterLast(Front(t), {'/'}) ==> c in cut;
      FewerSeparators(Front(t));
    }
  }

  lemma CoveredEndsOpen(t: string)
    requires Covered(t) && t != ""
    ensures Last(t) != '\\'
  {
    assert t[|t| - 1..] == [Last(t)];
  }

  /**
   On POSIX a path is cut to the last segment it was promised exactly when every backslash the
   normalised path still holds has a slash after it: only doubled backslashes are normalised.
   */
  lemma PosixCutsExactly(s: string)
    ensures RedactPath(PosixBasename, s) == PREFIX + LastSegment(s) <==> Covered(Normal(s))
  {
    var t := Normal(s);
    LastSegmentOfNormal(s);
    CutHoldsNoBackslash(t);
    ScanHasNoSeparator(t, BOTH);
    TrimLeavesNoSlash(ReplacePairs(s));
    if Covered(t) {
      FewerSeparators(t);
      if t != "" { CoveredEndsOpen(t); }
      ScanIsAfterLast(t, BOTH);
    } else {
      assert RedactPath(PosixBasename, s)[7..] == PosixBasename(t);
      assert (PREFIX + LastSegment(s))[7..] == LastSegment(s);
    }
  }

  /** A path of single backslashes is kept whole on POSIX, its directories included. */
  lemma PosixKeepsSingleBackslashes(s: string)
    requires '/' !in s && NoPairs(s)
    ensures RedactPath(PosixBasename, s) == PREFIX + s
  {
    NoPairsIsKept(s);
    NoSlashIsNormal(s);
    NoSlashIsWhole(s);
    assert Normal(s) == TrimSlashes(s);
  }

  lemma NoSlashIsNormal(s: string)
    requires '/' !in s
    ensures TrimSlashes(s) == s
  {
    if s != "" { assert Last(s) in s; }
  }

  lemma NoSlashIsWhole(s: string)
    requires '/' !in s
    ensures PosixBasename(s) == s
  {
    AfterLastSkips("", s, {'/'});
    assert "" + s == s;
  }

  /** Such a path, and what should have been left of it. */
  lemma PosixKeepsTheDirectory()
    ensures RedactPath(PosixBasename, "me\\a") == "<path>/me\\a" && LastSegment("me\\a") == "a"
  {
    assert NoPairs("me\\a");
    PosixKeepsSingleBackslashes("me\\a");
    PosixExampleSegment();
  }

  lemma PosixExampleSegment()
    ensures LastSegment("me\\a") == "a"
  {
    PosixExampleSlashed();
    ExampleCut("me/", "a");
  }

  lemma PosixExampleSlashed()
    ensures ToSlashes("me\\a") == "me/" + "a"
  {
    var s := "me\\a";
    assert s[1..] == "e\\a" && s[1..][1..] == "\\a" && s[1..][1..][1..] == "a";
    assert ToSlashes("a") == "a" && ToSlashes("\\a") == "/a";
  }

  lemma ExampleCut(directory: string, name: string)
    requires directory != "" && Last(directory) == '/' && name != "" && '/' !in name
    ensures TrimSlashes(directory + name) == directory + name && TrimSlashes(directory + name + "/") == directory + name
    ensures AfterLast(directory + name, {'/'}) == name
  {
    assert Last(directory + name) == Last(name) && Last(name) in name;
    assert Front(directory + name + "/") == directory + name;
    AfterLastSkips(directory, name, {'/'});
  }

  lemma {:induction false} AfterLastOfTail(p: string, t: string, separators: set<char>)
    ensures (exists i :: 0 <= i < |t| && t[i] in separators) ==>
              AfterLast(p + t, separators) == AfterLast(t, separators)
    ensures (forall i :: 0 <= i < |t| ==> t[i] !in separators) ==>
              AfterLast(p + t, separators) == AfterLast(p, separators) + t
    decreases |t|
  {
    if t == "" {
      assert p + t == p;
    } else {
      assert Front(p + t) == p + Front(t) && Last(p + t) == Last(t);
      AfterLastOfTail(p, Front(t), separators);
      assert forall i :: 0 <= i < |t| - 1 ==> t[i] == Front(t)[i];
    }
  }

  predicate EndsInBackslash(t: string) {
    t != "" && Last(t) == '\\'
  }

  /**
   On Windows a path is cut to its last segment exactly when its normalised form does not end in a
   backslash and, after a drive, holds a separator; paths of separators alone have no segment to lose.
   */
  lemma WindowsCutsExactly(s: string)
    ensures RedactPath(WindowsBasename, s) == PREFIX + LastSegment(s) <==>
      var t := Normal(s);
      if HasDrive(t) then !EndsInBackslash(t) && exists i :: 2 <= i < |t| && t[i] in BOTH
      else !EndsInBackslash(t) || forall i :: 0 <= i < |t| ==> t[i] in BOTH
  {
    var t := Normal(s);
    LastSegmentOfNormal(s);
    TrimLeavesNoSlash(ReplacePairs(s));
    ScanHasNoSeparator(t, BOTH);
    if t == "" || Last(t) !in BOTH { ScanIsAfterLast(t, BOTH); }
    if HasDrive(t) { DriveCut(t); }
    assert RedactPath(WindowsBasename, s)[7..] == WindowsBasename(t);
    assert (PREFIX + LastSegment(s))[7..] == LastSegment(s);
  }

  lemma DriveHasNoSeparator(t: string)
    requires HasDrive(t)
    ensures t == t[..2] + PastDrive(t) && AfterLast(t[..2], BOTH) == t[..2]
  {
    assert Front(t[..2]) == t[..1] && Front(t[..1]) == "" && AfterLast(t[..1], BOTH) == t[..1];
  }

  /** A prefix without separators joins the name exactly when the rest holds no separator. */
  lemma PrefixJoins(p: string, rest: string, separators: set<char>)
    requires p != "" && AfterLast(p, separators) == p
    ensures AfterLast(rest, separators) == AfterLast(p + rest, separators) <==>
            exists i :: 0 <= i < |rest| && rest[i] in separators
  {
    AfterLastOfTail(p, rest, separators);
    AfterLastOfTail("", rest, separators);
    assert "" + rest == rest;
    if forall i :: 0 <= i < |rest| ==> rest[i] !in separators {
      assert |AfterLast(p + rest, separators)| == |p| + |rest|;
    }
  }

  /** The drive stays on the name when no separator follows it. */
  lemma DriveCut(t: string)
    requires HasDrive(t) && Last(t) != '/'
    ensures WindowsBasename(t) == AfterLast(t, BOTH) <==> exists i :: 2 <= i < |t| && t[i] in BOTH
    ensures Last(t) == '\\' ==> WindowsBasename(t) == ""
  {
    DriveHasNoSeparator(t);
    PrefixJoins(t[..2], PastDrive(t), BOTH);
    SeparatorPastDrive(t);
    if Last(t) == '\\' { assert Last(PastDrive(t)) == '\\'; }
  }

  lemma SeparatorPastDrive(t: string)
    requires HasDrive(t)
    ensures (exists i :: 0 <= i < |PastDrive(t)| && PastDrive(t)[i] in BOTH) <==>
            exists i :: 2 <= i < |t| && t[i] in BOTH
  {
    var rest := PastDrive(t);
    if i :| 0 <= i < |rest| && rest[i] in BOTH {
      assert t[i + 2] in BOTH;
    }
  }

  /** A name that Windows loses: a directory written with a trailing backslash. */
  lemma WindowsLosesTheName()
    ensures RedactPath(WindowsBasename, "C:\\a\\") == "<path>/" && LastSegment("C:\\a\\") == "a"
  {
    TrailingBackslashChanges();
    WindowsExampleSegment();
  }

  lemma WindowsExampleSegment()
    ensures LastSegment("C:\\a\\") == "a"
  {
    WindowsExampleSlashed();
    ExampleCut("C:/", "a");
  }

  lemma WindowsExampleSlashed()
    ensures ToSlashes("C:\\a\\") == "C:/" + "a" + "/"
  {
    var s := "C:\\a\\";
    assert s[1..] == ":\\a\\" && s[1..][1..] == "\\a\\" && s[1..][1..][1..] == "a\\" && s[1..][1..][1..][1..] == "\\";
    assert ToSlashes("\\") == "/" && ToSlashes("a\\") == "a/" && ToSlashes("\\a\\") == "/a/";
    assert ToSlashes(":\\a\\") == ":/a/";
  }
}
