/**
 * The local project descriptor: its record, the name and path validations and
 * the default domain derived from the name. Persistence (Save, Load, Delete)
 * is not part of this model.
 */
module Project {
  import opened Wrappers
  import opened Text

  /** The descriptor persisted in the working directory. */
  datatype Project = Project(
    name: string,
    path: string,
    defaultDomainEnabled: bool,
    enableStats: bool,
    forceHttps: bool)

  /** A descriptor with only its name set (every other field zero-valued). */
  function Named(name: string): Project {
    Project(name, "", false, false, false)
  }

  /** A descriptor with only its path set. */
  function AtPath(path: string): Project {
    Project("", path, false, false, false)
  }

  /** The five package-level error values, plus a stat error passed through unchanged. */
  datatype Error =
    | ErrNameInvalidLength
    | ErrNameInvalid
    | ErrPathNotRelative
    | ErrPathNotExist
    | ErrPathNotDir
    | StatError(cause: Cause)

  const NameInvalidLengthText := "Name must have minimum 3 and maximum 63 characters"
  const NameInvalidText := "Name may only contain lowercase letters, numbers and hyphens, but may not begin or end with hyphens"
  const PathNotRelativeText := "Path must be relative to current working directory"
  const PathNotExistText := "Path does not exist"
  const PathNotDirText := "Path must be a directory"

  /** The text each error value carries. */
  function Message(e: Error): string {
    match e
    case ErrNameInvalidLength => NameInvalidLengthText
    case ErrNameInvalid => NameInvalidText
    case ErrPathNotRelative => PathNotRelativeText
    case ErrPathNotExist => PathNotExistText
    case ErrPathNotDir => PathNotDirText
    case StatError(cause) => cause.text
  }

  // ---------------------------------------------------------------------
  // The name pattern `(?m)(^[a-z0-9][a-z0-9\-]{1,61}[a-z0-9]$)`
  // ---------------------------------------------------------------------

  /** The class `[a-z0-9]`. */
  predicate NameChar(c: char) {
    ('a' <= c <= 'z') || ('0' <= c <= '9')
  }

  /** The class `[a-z0-9\-]`. */
  predicate InnerChar(c: char) {
    NameChar(c) || c == '-'
  }

  /** `[a-z0-9][a-z0-9\-]{1,61}[a-z0-9]` matching the whole of `l`. */
  predicate LineMatches(l: string) {
    && 3 <= |l| <= 63
    && NameChar(l[0])
    && NameChar(l[|l| - 1])
    && forall i :: 1 <= i < |l| - 1 ==> InnerChar(l[i])
  }

  /** Positions where `^` matches in multi-line mode: the start of the text or just after '\n'. */
  predicate LineStart(s: string, i: int) {
    i == 0 || (0 < i <= |s| && s[i - 1] == '\n')
  }

  /** Positions where `$` matches in multi-line mode: the end of the text or just before '\n'. */
  predicate LineStop(s: string, j: int) {
    j == |s| || (0 <= j < |s| && s[j] == '\n')
  }

  /** The pattern matches `s[i..j]`, with both anchors satisfied. */
  ghost predicate MatchesAt(s: string, i: int, j: int) {
    0 <= i <= j <= |s| && LineStart(s, i) && LineStop(s, j) && LineMatches(s[i..j])
  }

  /** What `MatchString` answers: the pattern matches somewhere in `s`. */
  ghost predicate RegexMatches(s: string) {
    exists i, j :: MatchesAt(s, i, j)
  }

  /** `projectNameRe.MatchString(s)`: try the pattern on each '\n'-separated line in turn. */
  predicate MatchString(s: string)
    decreases |s|
  {
    var n := LineEnd(s);
    LineMatches(s[..n]) || (n < |s| && MatchString(s[n + 1..]))
  }

  /** No string the class accepts contains a line break. */
  lemma LineMatchesHasNoNewline(l: string, k: int)
    requires LineMatches(l) && 0 <= k < |l|
    ensures l[k] != '\n'
  {
  }

  /** A match in the text after a line break is a match in the whole text, shifted by the break's position. */
  lemma ShiftMatch(s: string, n: nat, i: int, j: int)
    requires n < |s| && s[n] == '\n'
    requires MatchesAt(s[n + 1..], i, j)
    ensures MatchesAt(s, i + n + 1, j + n + 1)
  {
    var t := s[n + 1..];
    assert s[i + n + 1..j + n + 1] == t[i..j];
    assert LineStart(s, i + n + 1) by {
      if i > 0 { assert s[i + n] == t[i - 1]; }
    }
    assert LineStop(s, j + n + 1) by {
      if j < |t| { assert s[j + n + 1] == t[j]; }
    }
  }

  /** A match found in the first line, or in the rest of the text shifted past the first '\n'. */
  lemma {:induction false} MatchStringSound(s: string)
    requires MatchString(s)
    ensures RegexMatches(s)
    decreases |s|
  {
    var n := LineEnd(s);
    if LineMatches(s[..n]) {
      assert MatchesAt(s, 0, n);
    } else {
      assert n < |s| && MatchString(s[n + 1..]);
      MatchStringSound(s[n + 1..]);
      var i, j :| MatchesAt(s[n + 1..], i, j);
      ShiftMatch(s, n, i, j);
    }
  }

  /** Every place the pattern matches is found by scanning the lines. */
  lemma {:induction false} MatchStringComplete(s: string, i: int, j: int)
    requires MatchesAt(s, i, j)
    ensures MatchString(s)
    decreases |s|
  {
    var n := LineEnd(s);
    var l := s[i..j];
    if i == 0 {
      forall k | 0 <= k < j ensures s[k] != '\n' {
        LineMatchesHasNoNewline(l, k);
      }
      assert j == n;
      assert s[..n] == l;
    } else {
      assert s[i - 1] == '\n';
      assert n <= i - 1;
      var t := s[n + 1..];
      assert t[i - n - 1..j - n - 1] == l;
      assert LineStart(t, i - n - 1) by {
        if i - n - 1 > 0 { assert t[i - n - 2] == s[i - 1]; }
      }
      assert LineStop(t, j - n - 1) by {
        if j < |s| { assert t[j - n - 1] == s[j]; }
      }
      assert MatchesAt(t, i - n - 1, j - n - 1);
      MatchStringComplete(t, i - n - 1, j - n - 1);
    }
  }

  /** The line scanner decides exactly the regular expression's match relation. */
  lemma MatchStringIsRegexMatch(s: string)
    ensures MatchString(s) <==> RegexMatches(s)
  {
    if MatchString(s) {
      MatchStringSound(s);
    }
    forall i, j | MatchesAt(s, i, j) ensures MatchString(s) {
      MatchStringComplete(s, i, j);
    }
  }

  /** In line terms: the pattern matches when one of the '\n'-separated lines matches it whole. */
  lemma {:induction false} MatchStringSomeLine(s: string)
    ensures MatchString(s) <==> exists k :: 0 <= k < |Lines(s)| && LineMatches(Lines(s)[k])
    decreases |s|
  {
    var n := LineEnd(s);
    var ls := Lines(s);
    if n < |s| {
      var t := s[n + 1..];
      MatchStringSomeLine(t);
      assert ls == [s[..n]] + Lines(t);
      assert MatchString(s) == (LineMatches(s[..n]) || MatchString(t));
      if MatchString(s) {
        if LineMatches(s[..n]) {
          assert LineMatches(ls[0]);
        } else {
          var k :| 0 <= k < |Lines(t)| && LineMatches(Lines(t)[k]);
          assert ls[k + 1] == Lines(t)[k];
          assert LineMatches(ls[k + 1]);
        }
      }
      forall k | 0 <= k < |ls| && LineMatches(ls[k]) ensures MatchString(s) {
        if k > 0 {
          assert ls[k] == Lines(t)[k - 1];
        }
      }
    } else {
      assert s[..n] == s;
      assert ls == [s];
      assert MatchString(s) == LineMatches(ls[0]);
    }
  }

  /** For a name without line breaks the pattern has to match the whole name. */
  lemma SingleLineMatch(s: string)
    requires '\n' !in s
    ensures MatchString(s) <==> LineMatches(s)
  {
    assert LineEnd(s) == |s|;
    assert s[..|s|] == s;
  }

  // ---------------------------------------------------------------------
  // Operations
  // ---------------------------------------------------------------------

  /** The byte-length window that `ValidateName` tests first. */
  predicate NameLengthOk(name: string) {
    3 <= ByteLength(name) <= 63
  }

  /**
   * `(*Project).ValidateName`: the byte length first, then the multi-line pattern.
   * Only three answers are possible, and the name is accepted exactly when its
   * length is in range and the pattern matches some line of it.
   */
  function ValidateName(p: Project): (r: Option<Error>)
    ensures r == None || r == Some(ErrNameInvalidLength) || r == Some(ErrNameInvalid)
    ensures r == Some(ErrNameInvalidLength) <==> ByteLength(p.name) < 3 || ByteLength(p.name) > 63
    ensures r == None <==> NameLengthOk(p.name) && RegexMatches(p.name)
  {
    MatchStringIsRegexMatch(p.name);
    if ByteLength(p.name) < 3 || ByteLength(p.name) > 63 then Some(ErrNameInvalidLength)
    else if !MatchString(p.name) then Some(ErrNameInvalid)
    else None
  }

  /**
   * `(*Project).DefaultDomain`: the name, a dot and the configured base domain,
   * with no validation of the name.
   */
  function DefaultDomain(p: Project, baseDomain: string): (host: string)
    ensures |host| == |p.name| + 1 + |baseDomain|
    ensures host[..|p.name|] == p.name && host[|p.name|] == '.' && host[|p.name| + 1..] == baseDomain
    ensures ByteLength(host) == ByteLength(p.name) + 1 + ByteLength(baseDomain)
  {
    ByteLengthConcat(p.name, ".");
    ByteLengthConcat(p.name + ".", baseDomain);
    p.name + "." + baseDomain
  }

  /** Under one base domain, the default domain names its project: equal domains, equal names. */
  lemma DefaultDomainDeterminesName(p: Project, q: Project, baseDomain: string)
    ensures DefaultDomain(p, baseDomain) == DefaultDomain(q, baseDomain) <==> p.name == q.name
  {
    var hp, hq := DefaultDomain(p, baseDomain), DefaultDomain(q, baseDomain);
    if hp == hq {
      assert |p.name| == |q.name|;
      assert hp[..|p.name|] == p.name;
      assert hq[..|q.name|] == q.name;
    }
  }

  /** `filepath.IsAbs` on a Unix system: the path starts at the root. */
  predicate IsAbs(path: string) {
    HasPrefix(path, "/")
  }

  /** What `os.Stat` reports on a path, with `os.IsNotExist` already applied to its error. */
  datatype StatResult =
    | NotExist
    | OtherErr(err: Cause)
    | IsFile
    | IsDir

  /** `(*Project).ValidatePath`, with the file system's answer for the path given as `stat`. */
  function ValidatePath(p: Project, stat: StatResult): (r: Option<Error>)
    ensures IsAbs(p.path) ==> r == Some(ErrPathNotRelative)
    ensures r == None <==> !IsAbs(p.path) && stat == IsDir
    ensures r == Some(ErrPathNotExist) <==> !IsAbs(p.path) && stat == NotExist
    ensures r == Some(ErrPathNotDir) <==> !IsAbs(p.path) && stat == IsFile
    ensures forall e :: r == Some(StatError(e)) <==> !IsAbs(p.path) && stat == OtherErr(e)
    ensures r != Some(ErrNameInvalid) && r != Some(ErrNameInvalidLength)
  {
    if IsAbs(p.path) then Some(ErrPathNotRelative)
    else match stat
      case NotExist => Some(ErrPathNotExist)
      case OtherErr(e) => Some(StatError(e))
      case IsFile => Some(ErrPathNotDir)
      case IsDir => None
  }

  /** An absolute path is rejected before the file system is consulted: the stat answer is irrelevant. */
  lemma AbsolutePathIgnoresStat(p: Project, s1: StatResult, s2: StatResult)
    requires IsAbs(p.path)
    ensures ValidatePath(p, s1) == ValidatePath(p, s2) == Some(ErrPathNotRelative)
  {
  }

  /** A stat error on a relative path comes back unchanged, reported with its own text. */
  lemma StatErrorPassesThrough(p: Project, e: Cause)
    requires !IsAbs(p.path)
    ensures ValidatePath(p, OtherErr(e)) == Some(StatError(e))
    ensures Message(ValidatePath(p, OtherErr(e)).value) == e.text
  {
  }

  // ---------------------------------------------------------------------
  // Multi-line names
  // ---------------------------------------------------------------------

  /**
   * Because the pattern is compiled in multi-line mode and `MatchString` looks
   * for a match anywhere, a name passes as soon as one of its lines fits: a name
   * holding an upper-case letter and a line break is accepted.
   */
  lemma MultiLineNameAccepted(name: string)
    requires name == "Bad\nabc"
    ensures ValidateName(Named(name)) == None
    ensures '\n' in name && !InnerChar(name[0])
  {
    assert NameLengthOk(name) by {
      assert IsAscii(name);
    }
    assert MatchString(name) by {
      assert LineEnd(name) == 3 by {
        assert name[3] == '\n';
      }
      var rest := name[4..];
      assert rest == "abc";
      assert '\n' !in rest && LineMatches(rest);
      SingleLineMatch(rest);
    }
  }

  /** A name the whole pattern matches uses only ASCII, so its byte length is its length. */
  lemma LineMatchesIsAscii(l: string)
    requires LineMatches(l)
    ensures IsAscii(l) && ByteLength(l) == |l|
  {
    assert forall i :: 0 <= i < |l| ==> InnerChar(l[i]);
  }

  /**
   * The check the error text describes: the pattern must match the name as a
   * whole, so an accepted name consists only of lower-case letters, digits and
   * hyphens, with a letter or digit at each end.
   */
  function ValidateNameWholeString(p: Project): (r: Option<Error>)
    ensures r == None || r == Some(ErrNameInvalidLength) || r == Some(ErrNameInvalid)
    ensures r == Some(ErrNameInvalidLength) <==> ByteLength(p.name) < 3 || ByteLength(p.name) > 63
    ensures r == None <==> LineMatches(p.name)
    ensures r == None ==> forall i :: 0 <= i < |p.name| ==> InnerChar(p.name[i])
  {
    assert LineMatches(p.name) ==> ByteLength(p.name) == |p.name| by {
      if LineMatches(p.name) { LineMatchesIsAscii(p.name); }
    }
    if ByteLength(p.name) < 3 || ByteLength(p.name) > 63 then Some(ErrNameInvalidLength)
    else if !LineMatches(p.name) then Some(ErrNameInvalid)
    else None
  }

  /** On names without a line break the two checks give the same answer. */
  lemma WholeStringAgreesOnOneLine(p: Project)
    requires '\n' !in p.name
    ensures ValidateName(p) == ValidateNameWholeString(p)
  {
    SingleLineMatch(p.name);
  }

  /** The multi-line name above is rejected by the whole-string check. */
  lemma MultiLineNameRejected(name: string)
    requires name == "Bad\nabc"
    ensures ValidateNameWholeString(Named(name)) == Some(ErrNameInvalid)
  {
    assert IsAscii(name);
    assert !InnerChar(name[0]);
  }

  // ---------------------------------------------------------------------
  // The cases pinned by the package's own test table
  // ---------------------------------------------------------------------

  /** A one-line ASCII name of the right length is accepted exactly when the pattern matches it whole. */
  lemma SingleLineName(name: string)
    requires '\n' !in name && IsAscii(name) && 3 <= |name| <= 63
    ensures ValidateName(Named(name)) == if LineMatches(name) then None else Some(ErrNameInvalid)
  {
    SingleLineMatch(name);
  }

  /** The names the package's test table accepts. */
  lemma AcceptedNames(name: string)
    requires name == "abc" || name == "good-one" || name == "hello-world--foobar"
    ensures ValidateName(Named(name)) == None
  {
    assert '\n' !in name && IsAscii(name) && LineMatches(name);
    SingleLineName(name);
  }

  /** The names the package's test table rejects for their characters. */
  lemma RejectedNames(name: string)
    requires name == "Bad-One" || name == "-abc" || name == "abc-" || name == "good one" || name == "good&one"
    ensures ValidateName(Named(name)) == Some(ErrNameInvalid)
  {
    assert '\n' !in name && IsAscii(name);
    assert !NameChar(name[0]) || !NameChar(name[|name| - 1]) || !InnerChar(name[4]) by {
      if name == "good one" || name == "good&one" {
        assert !InnerChar(name[4]);
      }
    }
    SingleLineName(name);
  }

  lemma NamesOfWrongLength()
    ensures ValidateName(Named("aa")) == Some(ErrNameInvalidLength)
    ensures ValidateName(Named(Repeat('a', 64))) == Some(ErrNameInvalidLength)
  {
    assert IsAscii("aa");
    assert IsAscii(Repeat('a', 64));
  }

  /** The length window counts bytes: a two-character name of six bytes passes it and fails the pattern. */
  lemma ShortNonAsciiName(name: string)
    requires name == "完成"
    ensures |name| == 2 && ByteLength(name) == 6
    ensures ValidateName(Named(name)) == Some(ErrNameInvalid)
  {
    assert ByteLength(name) == 6 by {
      assert name == "完" + "成";
      ByteLengthConcat("完", "成");
    }
    assert !MatchString(name) by {
      assert '\n' !in name;
      SingleLineMatch(name);
    }
  }

  /** The length window counts bytes: 22 three-byte characters are 66 bytes, too long. */
  lemma LongNonAsciiName(name: string)
    requires name == Repeat('完', 22)
    ensures |name| == 22 && ByteLength(name) == 66
    ensures ValidateName(Named(name)) == Some(ErrNameInvalidLength)
  {
    ByteLengthRepeat('完', 22);
  }

  lemma DefaultDomainExamples()
    ensures DefaultDomain(Named("aaa"), "test.dev") == "aaa.test.dev"
    ensures DefaultDomain(Named("foo-1"), "test.dev") == "foo-1.test.dev"
    ensures DefaultDomain(Named("完成"), "test.dev") == "完成.test.dev"
  {
    assert "aaa" + "." + "test.dev" == "aaa.test.dev";
    assert "foo-1" + "." + "test.dev" == "foo-1.test.dev";
    assert "完成" + "." + "test.dev" == "完成.test.dev";
  }

  lemma PathExamples()
    ensures forall s :: ValidatePath(AtPath("/tmp/rise-test/public"), s) == Some(ErrPathNotRelative)
    ensures ValidatePath(AtPath("./public2"), NotExist) == Some(ErrPathNotExist)
    ensures ValidatePath(AtPath("./public2"), IsFile) == Some(ErrPathNotDir)
    ensures ValidatePath(AtPath("./public"), IsDir) == None
  {
    assert "/tmp/rise-test/public"[..1] == "/";
    assert "./public2"[..1] != "/" && "./public"[..1] != "/" by {
      assert "./public2"[..1][0] == '.' && "./public"[..1][0] == '.';
    }
  }
}
