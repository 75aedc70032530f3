/** The output file name chosen when a capture stops:
    `<folder><team name, spaces as dashes>_session_<date>_<id, at least 3 digits>.json`,
    with the id counting up from 0 until the name is not taken. The set of
    files that already exist and the date text are inputs. */
module FileNames {

  /** `teamName.Replace(" ", "-")`. */
  function ReplaceSpaces(s: string): (r: string)
    ensures |r| == |s|
    ensures forall i :: 0 <= i < |s| ==> r[i] == (if s[i] == ' ' then '-' else s[i])
  {
    if s == [] then []
    else (if s[0] == ' ' then "-" else [s[0]]) + ReplaceSpaces(s[1..])
  }

  /** A dashed name has no space left, and dashing it again changes nothing. */
  lemma ReplaceSpacesIdempotent(s: string)
    ensures ' ' !in ReplaceSpaces(s)
    ensures ReplaceSpaces(ReplaceSpaces(s)) == ReplaceSpaces(s)
  {
  }

  predicate IsDigit(c: char)
  {
    '0' <= c <= '9'
  }

  function DigitChar(d: nat): (c: char)
    requires d < 10
    ensures IsDigit(c)
  {
    (48 + d) as char
  }

  function DigitValue(c: char): (d: nat)
    requires IsDigit(c)
    ensures d < 10 && DigitChar(d) == c
  {
    c as int - 48
  }

  predicate AllDigits(s: string)
  {
    forall i :: 0 <= i < |s| ==> IsDigit(s[i])
  }

  /** The decimal digits of `n`, most significant first, without leading zeros. */
  function Digits(n: nat): (s: string)
    ensures |s| >= 1 && AllDigits(s)
    decreases n
  {
    if n < 10 then [DigitChar(n)] else Digits(n / 10) + [DigitChar(n % 10)]
  }

  /** A single digit exactly below ten, and no leading zero. */
  lemma {:induction false} DigitsCanonical(n: nat)
    ensures (|Digits(n)| == 1) == (n < 10)
    ensures n != 0 ==> Digits(n)[0] != '0'
    decreases n
  {
    if n >= 10 {
      DigitsCanonical(n / 10);
    }
  }

  /** The number a string of decimal digits denotes: the reference reading of
      the digits the name carries. */
  function ParseDigits(s: string): nat
    requires AllDigits(s)
    decreases |s|
  {
    if s == [] then 0 else 10 * ParseDigits(s[..|s| - 1]) + DigitValue(s[|s| - 1])
  }

  /** Reading the digits back gives the number. */
  lemma {:induction false} ParseDigitsOfDigits(n: nat)
    ensures ParseDigits(Digits(n)) == n
    decreases n
  {
    if n >= 10 {
      var s := Digits(n / 10) + [DigitChar(n % 10)];
      assert s[..|s| - 1] == Digits(n / 10);
      ParseDigitsOfDigits(n / 10);
    }
  }

  /** `k` copies of the padding character '0'. */
  function Zeros(k: nat): (s: string)
    ensures |s| == k && AllDigits(s)
    ensures forall i :: 0 <= i < k ==> s[i] == '0'
  {
    if k == 0 then [] else Zeros(k - 1) + "0"
  }

  lemma {:induction false} ParseZeros(k: nat)
    ensures ParseDigits(Zeros(k)) == 0
  {
    if k > 0 {
      var s := Zeros(k);
      assert s[..|s| - 1] == Zeros(k - 1);
      ParseZeros(k - 1);
    }
  }

  /** Leading zeros do not change the value. */
  lemma {:induction false} ParseLeadingZeros(k: nat, s: string)
    requires AllDigits(s)
    ensures ParseDigits(Zeros(k) + s) == ParseDigits(s)
    decreases |s|
  {
    if s == [] {
      assert Zeros(k) + s == Zeros(k);
      ParseZeros(k);
    } else {
      var t := Zeros(k) + s;
      assert t[..|t| - 1] == Zeros(k) + s[..|s| - 1];
      assert t[|t| - 1] == s[|s| - 1];
      ParseLeadingZeros(k, s[..|s| - 1]);
    }
  }

  /** Left-pad with '0' to at least `width` characters. */
  function ZeroPad(s: string, width: nat): (r: string)
    requires AllDigits(s)
    ensures AllDigits(r)
    ensures |r| == if |s| >= width then |s| else width
    ensures ParseDigits(r) == ParseDigits(s)
  {
    ParseLeadingZeros(if |s| >= width then 0 else width - |s|, s);
    assert Zeros(0) + s == s;
    Zeros(if |s| >= width then 0 else width - |s|) + s
  }

  /** The .NET custom format `"_000"`: a literal underscore, then the digits
      zero-padded to three places (more places once the id reaches 1000). */
  function IdSuffix(id: nat): (r: string)
    ensures |r| >= 4 && r[0] == '_'
    ensures AllDigits(r[1..]) && ParseDigits(r[1..]) == id
    ensures |r| == 1 + (if |Digits(id)| >= 3 then |Digits(id)| else 3)
    ensures |r| > 4 ==> r[1] != '0'
  {
    ParseDigitsOfDigits(id);
    DigitsCanonical(id);
    var r := "_" + ZeroPad(Digits(id), 3);
    assert r[1..] == ZeroPad(Digits(id), 3);
    r
  }

  /** The first and second ids, and the first four-digit one. */
  lemma IdSuffixExamples()
    ensures IdSuffix(0) == "_000"
    ensures IdSuffix(1) == "_001"
    ensures IdSuffix(42) == "_042"
    ensures IdSuffix(1000) == "_1000"
  {
    assert Digits(0) == "0" && Digits(1) == "1";
    assert Digits(42) == "42" by { assert Digits(4) == "4"; }
    assert Digits(1000) == "1000" by {
      assert Digits(1) == "1";
      assert Digits(10) == "10";
      assert Digits(100) == "100";
    }
  }

  /** Two ids with the same suffix are the same id. */
  lemma IdSuffixInjective(a: nat, b: nat)
    requires IdSuffix(a) == IdSuffix(b)
    ensures a == b
  {
    assert IdSuffix(a)[1..] == IdSuffix(b)[1..];
  }

  /** The full path the source builds for session `id`. */
  function FileName(folder: string, teamName: string, date: string, id: nat): string
  {
    folder + ReplaceSpaces(teamName) + "_session_" + date + IdSuffix(id) + ".json"
  }

  /** The name is the folder, the team name with no space left in it,
      `_session_`, the date, the id suffix and `.json`, in that order. */
  lemma FileNameLayout(folder: string, teamName: string, date: string, id: nat)
    ensures var r := FileName(folder, teamName, date, id);
            && |r| == |folder| + |teamName| + |"_session_"| + |date| + |IdSuffix(id)| + |".json"|
            && r[..|folder|] == folder
            && (forall i :: 0 <= i < |teamName| ==> r[|folder| + i] == ReplaceSpaces(teamName)[i])
            && r[|folder| + |teamName|..|folder| + |teamName| + |"_session_"|] == "_session_"
            && r[|folder| + |teamName| + |"_session_"|..|folder| + |teamName| + |"_session_"| + |date|] == date
            && r[|r| - |".json"| - |IdSuffix(id)|..|r| - |".json"|] == IdSuffix(id)
            && r[|r| - |".json"|..] == ".json"
  {
    Layout(FileName(folder, teamName, date, id), folder, ReplaceSpaces(teamName), |teamName|, date, IdSuffix(id));
  }

  /** Where each part of a five-part name sits. */
  lemma Layout(r: string, folder: string, team: string, teamLength: nat, date: string, suffix: string)
    requires r == folder + team + "_session_" + date + suffix + ".json"
    requires |team| == teamLength
    ensures |r| == |folder| + teamLength + |"_session_"| + |date| + |suffix| + |".json"|
    ensures r[..|folder|] == folder
    ensures r[|folder|..|folder| + teamLength] == team
    ensures forall i :: 0 <= i < teamLength ==> r[|folder| + i] == team[i]
    ensures r[|folder| + teamLength..|folder| + teamLength + |"_session_"|] == "_session_"
    ensures r[|folder| + teamLength + |"_session_"|..|folder| + teamLength + |"_session_"| + |date|] == date
    ensures r[|r| - |".json"| - |suffix|..|r| - |".json"|] == suffix
    ensures r[|r| - |".json"|..] == ".json"
  {
    Segment(folder, team, "_session_" + date + suffix + ".json");
    Segment(folder + team, "_session_", date + suffix + ".json");
    Segment(folder + team + "_session_", date, suffix + ".json");
    Segment(folder + team + "_session_" + date, suffix, ".json");
  }

  /** The middle part of a three-part concatenation, and its ends. */
  lemma Segment(x: string, y: string, z: string)
    ensures (x + y + z)[..|x|] == x
    ensures (x + y + z)[|x|..|x| + |y|] == y
    ensures (x + y + z)[|x| + |y|..] == z
  {
  }

  /** Distinct ids give distinct names: everything around the suffix is fixed. */
  lemma FileNameInjective(folder: string, teamName: string, date: string, a: nat, b: nat)
    requires FileName(folder, teamName, date, a) == FileName(folder, teamName, date, b)
    ensures a == b
  {
    var p := folder + ReplaceSpaces(teamName) + "_session_" + date;
    var x := IdSuffix(a);
    var y := IdSuffix(b);
    var n := p + x + ".json";
    assert n == FileName(folder, teamName, date, a);
    assert |x| == |y|;
    assert n[|p|..|p| + |x|] == x;
    assert (p + y + ".json")[|p|..|p| + |y|] == y;
    IdSuffixInjective(a, b);
  }

  /** The names of ids `0 .. n-1` are all taken. */
  ghost predicate TakenBelow(folder: string, teamName: string, date: string, existing: set<string>, n: nat)
  {
    forall j: nat :: j < n ==> FileName(folder, teamName, date, j) in existing
  }

  /** The set of names of ids `0 .. n-1` has exactly `n` members. */
  lemma {:induction false} NamesBelowCardinality(folder: string, teamName: string, date: string, n: nat)
    ensures |set j: nat | j < n :: FileName(folder, teamName, date, j)| == n
  {
    if n > 0 {
      var prev := set j: nat | j < n - 1 :: FileName(folder, teamName, date, j);
      var all := set j: nat | j < n :: FileName(folder, teamName, date, j);
      var last := FileName(folder, teamName, date, n - 1);
      assert all == prev + {last};
      if last in prev {
        var j: nat :| j < n - 1 && FileName(folder, teamName, date, j) == last;
        FileNameInjective(folder, teamName, date, j, n - 1);
      }
      NamesBelowCardinality(folder, teamName, date, n - 1);
    }
  }

  /** If `n` ids are taken, at least `n` files exist. */
  lemma TakenBound(folder: string, teamName: string, date: string, existing: set<string>, n: nat)
    requires TakenBelow(folder, teamName, date, existing, n)
    ensures n <= |existing|
  {
    var names := set j: nat | j < n :: FileName(folder, teamName, date, j);
    NamesBelowCardinality(folder, teamName, date, n);
    SubsetCardinality(names, existing);
  }

  lemma {:induction false} SubsetCardinality<T>(a: set<T>, b: set<T>)
    requires a <= b
    ensures |a| <= |b|
    decreases a
  {
    if a != {} {
      var x :| x in a;
      SubsetCardinality(a - {x}, b - {x});
    }
  }

  /** The id the search settles on, searching upwards from `id`: the first one
      whose name is not taken. */
  function FirstFreeId(folder: string, teamName: string, date: string, existing: set<string>, id: nat): (r: nat)
    requires TakenBelow(folder, teamName, date, existing, id)
    ensures id <= r <= |existing|
    ensures FileName(folder, teamName, date, r) !in existing
    ensures TakenBelow(folder, teamName, date, existing, r)
    decreases |existing| - id
  {
    TakenBound(folder, teamName, date, existing, id);
    if FileName(folder, teamName, date, id) !in existing then id
    else
      TakenBound(folder, teamName, date, existing, id + 1);
      FirstFreeId(folder, teamName, date, existing, id + 1)
  }

  /** The `while (File.Exists(fname))` search of `WriteJSON`. It stops at a name
      that is not taken, after every smaller id was found taken, and so never
      needs more ids than there are existing files. */
  method ChooseFileName(folder: string, teamName: string, date: string, existing: set<string>)
    returns (sessionID: nat, fname: string)
    ensures fname == FileName(folder, teamName, date, sessionID)
    ensures fname !in existing
    ensures forall j: nat :: j < sessionID ==> FileName(folder, teamName, date, j) in existing
    ensures sessionID <= |existing|
    ensures sessionID == FirstFreeId(folder, teamName, date, existing, 0)
  {
    sessionID := 0;
    fname := FileName(folder, teamName, date, sessionID);
    while fname in existing
      invariant fname == FileName(folder, teamName, date, sessionID)
      invariant TakenBelow(folder, teamName, date, existing, sessionID)
      decreases |existing| - sessionID
    {
      TakenBound(folder, teamName, date, existing, sessionID + 1);
      sessionID := sessionID + 1;
      fname := FileName(folder, teamName, date, sessionID);
    }
    TakenBound(folder, teamName, date, existing, sessionID);
    FirstFreeIdIsFirst(folder, teamName, date, existing, 0, sessionID);
  }

  /** Any id that is free while all smaller ones are taken is the one
      `FirstFreeId` finds. */
  lemma {:induction false} FirstFreeIdIsFirst(folder: string, teamName: string, date: string,
                                              existing: set<string>, id: nat, k: nat)
    requires id <= k
    requires TakenBelow(folder, teamName, date, existing, k)
    requires FileName(folder, teamName, date, k) !in existing
    ensures FirstFreeId(folder, teamName, date, existing, id) == k
    decreases k - id
  {
    if id < k {
      FirstFreeIdIsFirst(folder, teamName, date, existing, id + 1, k);
    }
  }

  /** Two exports under one team name on one date: the first gets `_000`, and
      once that file exists the second gets `_001`. */
  lemma SecondExportGetsNextId(folder: string, teamName: string, date: string)
    ensures FirstFreeId(folder, teamName, date, {}, 0) == 0
    ensures FirstFreeId(folder, teamName, date, {FileName(folder, teamName, date, 0)}, 0) == 1
  {
    var first := FileName(folder, teamName, date, 0);
    FirstFreeIdIsFirst(folder, teamName, date, {}, 0, 0);
    assert FileName(folder, teamName, date, 1) != first by {
      if FileName(folder, teamName, date, 1) == first {
        FileNameInjective(folder, teamName, date, 1, 0);
      }
    }
    FirstFreeIdIsFirst(folder, teamName, date, {first}, 0, 1);
  }
}
