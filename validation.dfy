/** Input validation for repository names, label colours and names, profile
    names, `owner/repo` identifiers, branch names, descriptions and whole
    profiles (internal/config/validation.go). The five regular expressions
    are kept as data in the source's own syntax; each validator's contract
    states the accepted set directly, character by character. */
module Validation {
  import opened Wrappers
  import opened Strings
  import opened Regex
  import opened Config

  datatype ValidationError =
    | RepoNameEmpty
    | RepoNameTooLong
    | RepoNameInvalid(repoName: string)
    | LabelColorInvalid(color: string)
    | ProfileNameEmpty
    | ProfileNameInvalid(profileName: string)
    | LabelNameEmpty
    | LabelNameTooLong
    | LabelNameNotPrintable
    | NwoEmpty
    | NwoInvalid(nwo: string)
    | BranchNameEmpty
    | BranchNameTooLong
    | BranchNameInvalid(branchName: string)
    | DescriptionTooLong

  /** The errors of ValidateProfile; each names the profile, and a colour
      error also names the label. A bad profile name is returned as it is. */
  datatype ProfileError =
    | BadProfileName(cause: ValidationError)
    | BadLabelName(profile: string, cause: ValidationError)
    | BadLabelColor(profile: string, labelName: string, cause: ValidationError)
    | EmptySrc(profile: string)
    | EmptyDest(profile: string)
    | BadBranch(profile: string, cause: ValidationError)
    | ReviewsOutOfRange(profile: string)

  // ----- character sets, stated directly -----

  predicate IsAsciiAlnum(c: char) {
    'a' <= c <= 'z' || 'A' <= c <= 'Z' || '0' <= c <= '9'
  }

  /** The characters of repository names and of each side of `owner/repo`. */
  predicate IsNameChar(c: char) {
    IsAsciiAlnum(c) || c == '.' || c == '_' || c == '-'
  }

  predicate IsHexDigit(c: char) {
    '0' <= c <= '9' || 'a' <= c <= 'f' || 'A' <= c <= 'F'
  }

  predicate IsProfileChar(c: char) {
    IsAsciiAlnum(c) || c == '_' || c == '-'
  }

  predicate IsBranchChar(c: char) {
    IsAsciiAlnum(c) || c == '.' || c == '_' || c == '/' || c == '-'
  }

  // ----- the source's patterns (validation.go lines 10-14) -----

  const Alnum: CharClass := [Range('a', 'z'), Range('A', 'Z'), Range('0', '9')]
  const NameClass: CharClass := Alnum + [Range('.', '.'), Range('_', '_'), Range('-', '-')]
  const HexClass: CharClass := [Range('0', '9'), Range('a', 'f'), Range('A', 'F')]
  const ProfileClass: CharClass := Alnum + [Range('_', '_'), Range('-', '-')]
  const SlashClass: CharClass := [Range('/', '/')]
  const BranchClass: CharClass := Alnum + [Range('.', '.'), Range('_', '_'), Range('/', '/'), Range('-', '-')]

  /** `^[a-zA-Z0-9][a-zA-Z0-9._-]*$` */
  const RepoNamePattern: Pattern := [One(Alnum), Star(NameClass)]
  /** `^[0-9a-fA-F]{6}$` */
  const LabelColorPattern: Pattern := [Exactly(HexClass, 6)]
  /** `^[a-zA-Z0-9_-]+$` */
  const ProfileNamePattern: Pattern := [Plus(ProfileClass)]
  /** `^[a-zA-Z0-9._-]+/[a-zA-Z0-9._-]+$` */
  const NwoPattern: Pattern := [Plus(NameClass), One(SlashClass), Plus(NameClass)]
  /** `^[a-zA-Z0-9._/-]+$` */
  const BranchNamePattern: Pattern := [Plus(BranchClass)]

  lemma AlnumIs(c: char)
    ensures InClass(c, Alnum) <==> IsAsciiAlnum(c)
  {
    if IsAsciiAlnum(c) {
      if 'a' <= c <= 'z' { assert Alnum[0] in Alnum; }
      else if 'A' <= c <= 'Z' { assert Alnum[1] in Alnum; }
      else { assert Alnum[2] in Alnum; }
    }
  }

  lemma NameClassIs(c: char)
    ensures InClass(c, NameClass) <==> IsNameChar(c)
  {
    AlnumIs(c);
    if InClass(c, Alnum) {
      var r :| r in Alnum && r.lo <= c <= r.hi;
      assert r in NameClass;
    }
    if c == '.' { assert NameClass[3] in NameClass; }
    if c == '_' { assert NameClass[4] in NameClass; }
    if c == '-' { assert NameClass[5] in NameClass; }
  }

  lemma HexClassIs(c: char)
    ensures InClass(c, HexClass) <==> IsHexDigit(c)
  {
    if IsHexDigit(c) {
      if '0' <= c <= '9' { assert HexClass[0] in HexClass; }
      else if 'a' <= c <= 'f' { assert HexClass[1] in HexClass; }
      else { assert HexClass[2] in HexClass; }
    }
  }

  lemma ProfileClassIs(c: char)
    ensures InClass(c, ProfileClass) <==> IsProfileChar(c)
  {
    AlnumIs(c);
    if InClass(c, Alnum) {
      var r :| r in Alnum && r.lo <= c <= r.hi;
      assert r in ProfileClass;
    }
    if c == '_' { assert ProfileClass[3] in ProfileClass; }
    if c == '-' { assert ProfileClass[4] in ProfileClass; }
  }

  lemma BranchClassIs(c: char)
    ensures InClass(c, BranchClass) <==> IsBranchChar(c)
  {
    AlnumIs(c);
    if InClass(c, Alnum) {
      var r :| r in Alnum && r.lo <= c <= r.hi;
      assert r in BranchClass;
    }
    if c == '.' { assert BranchClass[3] in BranchClass; }
    if c == '_' { assert BranchClass[4] in BranchClass; }
    if c == '/' { assert BranchClass[5] in BranchClass; }
    if c == '-' { assert BranchClass[6] in BranchClass; }
  }

  lemma AllNameChars(s: string)
    ensures AllIn(s, NameClass) <==> forall i :: 0 <= i < |s| ==> IsNameChar(s[i])
  {
    forall i | 0 <= i < |s| { NameClassIs(s[i]); }
  }

  // ----- what each pattern accepts -----

  lemma RepoNamePatternMeaning(s: string)
    ensures Matches(RepoNamePattern, s) <==>
            |s| >= 1 && IsAsciiAlnum(s[0]) && forall i :: 1 <= i < |s| ==> IsNameChar(s[i])
  {
    assert RepoNamePattern == [One(Alnum)] + [Star(NameClass)];
    OneMatches(Alnum, [Star(NameClass)], s);
    if |s| >= 1 {
      AlnumIs(s[0]);
      StarAll(NameClass, s[1..]);
      AllNameChars(s[1..]);
      assert forall i :: 1 <= i < |s| ==> s[1..][i - 1] == s[i];
    }
  }

  lemma LabelColorPatternMeaning(s: string)
    ensures Matches(LabelColorPattern, s) <==> |s| == 6 && forall i :: 0 <= i < 6 ==> IsHexDigit(s[i])
  {
    assert LabelColorPattern == [Exactly(HexClass, 6)] + [];
    ExactlyMatches(HexClass, 6, [], s);
    forall i | 0 <= i < |s| { HexClassIs(s[i]); }
    if |s| >= 6 {
      assert forall i :: 0 <= i < 6 ==> s[..6][i] == s[i];
    }
  }

  lemma ProfileNamePatternMeaning(s: string)
    ensures Matches(ProfileNamePattern, s) <==> |s| >= 1 && forall i :: 0 <= i < |s| ==> IsProfileChar(s[i])
  {
    PlusAll(ProfileClass, s);
    forall i | 0 <= i < |s| { ProfileClassIs(s[i]); }
  }

  lemma BranchNamePatternMeaning(s: string)
    ensures Matches(BranchNamePattern, s) <==> |s| >= 1 && forall i :: 0 <= i < |s| ==> IsBranchChar(s[i])
  {
    PlusAll(BranchClass, s);
    forall i | 0 <= i < |s| { BranchClassIs(s[i]); }
  }

  /** `s` is `owner/repo` split at position k: a single slash at k with a
      non-empty run of name characters on each side. */
  predicate NwoSplitAt(s: string, k: int) {
    && 0 < k < |s| - 1
    && s[k] == '/'
    && (forall i :: 0 <= i < k ==> IsNameChar(s[i]))
    && (forall i :: k < i < |s| ==> IsNameChar(s[i]))
  }

  /** The slash and the right-hand side of the identifier pattern, read at position k. */
  lemma NwoTailAt(s: string, k: nat)
    requires k <= |s|
    ensures Matches([One(SlashClass), Plus(NameClass)], s[k..]) <==>
            k < |s| - 1 && s[k] == '/' && forall i :: k < i < |s| ==> IsNameChar(s[i])
  {
    var t := s[k..];
    assert [One(SlashClass), Plus(NameClass)] == [One(SlashClass)] + [Plus(NameClass)];
    OneMatches(SlashClass, [Plus(NameClass)], t);
    if |t| > 0 {
      assert SlashClass[0] in SlashClass;
      assert InClass(t[0], SlashClass) <==> t[0] == '/';
      PlusAll(NameClass, t[1..]);
      AllNameChars(t[1..]);
      assert t[1..] == s[k + 1..];
      assert forall i :: k < i < |s| ==> s[k + 1..][i - k - 1] == s[i];
    }
  }

  lemma NwoPatternMeaning(s: string)
    ensures Matches(NwoPattern, s) <==> exists k :: NwoSplitAt(s, k)
  {
    var tail := [One(SlashClass), Plus(NameClass)];
    assert NwoPattern == [Plus(NameClass)] + tail;
    PlusMatches(NameClass, tail, s);
    if Matches(NwoPattern, s) {
      var k :| 1 <= k <= |s| && AllIn(s[..k], NameClass) && Matches(tail, s[k..]);
      NwoTailAt(s, k);
      AllNameChars(s[..k]);
      assert forall i :: 0 <= i < k ==> s[..k][i] == s[i];
      assert NwoSplitAt(s, k);
    }
    if exists k :: NwoSplitAt(s, k) {
      var k :| NwoSplitAt(s, k);
      NwoTailAt(s, k);
      AllNameChars(s[..k]);
      assert forall i :: 0 <= i < k ==> s[..k][i] == s[i];
      assert 1 <= k <= |s| && AllIn(s[..k], NameClass) && Matches(tail, s[k..]);
    }
  }

  // ----- the validators -----

  /** ValidateRepoName: non-empty, at most 100 bytes, an ASCII letter or digit
      first and only letters, digits, `.`, `_` and `-` after it. */
  function ValidateRepoName(name: string): (r: Outcome<ValidationError>)
    ensures r.Pass? <==>
            && 1 <= |name| <= 100
            && IsAsciiAlnum(name[0])
            && (forall i :: 1 <= i < |name| ==> IsNameChar(name[i]))
    ensures r == Fail(RepoNameEmpty) <==> name == ""
    ensures r == Fail(RepoNameTooLong) <==> name != "" && Utf8Len(name) > 100
    ensures r.Fail? ==> r.error in {RepoNameEmpty, RepoNameTooLong, RepoNameInvalid(name)}
  {
    RepoNamePatternMeaning(name);
    assert Matches(RepoNamePattern, name) ==> IsAscii(name);
    if name == "" then Fail(RepoNameEmpty)
    else if Utf8Len(name) > 100 then Fail(RepoNameTooLong)
    else if !Matches(RepoNamePattern, name) then Fail(RepoNameInvalid(name))
    else Pass
  }

  /** ValidateLabelColor: exactly six hexadecimal digits, in either case, and
      nothing else (so no leading `#`). */
  function ValidateLabelColor(color: string): (r: Outcome<ValidationError>)
    ensures r.Pass? <==> |color| == 6 && forall i :: 0 <= i < 6 ==> IsHexDigit(color[i])
    ensures r.Fail? ==> r.error == LabelColorInvalid(color)
  {
    LabelColorPatternMeaning(color);
    if !Matches(LabelColorPattern, color) then Fail(LabelColorInvalid(color)) else Pass
  }

  /** ValidateProfileName: a non-empty string of ASCII letters, digits, `_` and `-`. */
  function ValidateProfileName(name: string): (r: Outcome<ValidationError>)
    ensures r.Pass? <==> |name| >= 1 && forall i :: 0 <= i < |name| ==> IsProfileChar(name[i])
    ensures r == Fail(ProfileNameEmpty) <==> name == ""
    ensures r.Fail? ==> r.error in {ProfileNameEmpty, ProfileNameInvalid(name)}
  {
    ProfileNamePatternMeaning(name);
    if name == "" then Fail(ProfileNameEmpty)
    else if !Matches(ProfileNamePattern, name) then Fail(ProfileNameInvalid(name))
    else Pass
  }

  /** The rune loop of ValidateLabelName: every character of `s` is printable. */
  predicate AllPrintable(s: string, isPrint: char -> bool)
    ensures AllPrintable(s, isPrint) <==> forall i :: 0 <= i < |s| ==> isPrint(s[i])
  {
    if s == [] then true
    else
      assert forall i :: 1 <= i < |s| ==> s[1..][i - 1] == s[i];
      isPrint(s[0]) && AllPrintable(s[1..], isPrint)
  }

  /** ValidateLabelName: non-empty, at most 50 bytes, and every character
      printable. `isPrint` stands for Go's unicode.IsPrint (which accepts the
      ASCII space). */
  function ValidateLabelName(name: string, isPrint: char -> bool): (r: Outcome<ValidationError>)
    ensures r.Pass? <==> |name| >= 1 && Utf8Len(name) <= 50 && forall i :: 0 <= i < |name| ==> isPrint(name[i])
    ensures r == Fail(LabelNameEmpty) <==> name == ""
    ensures r == Fail(LabelNameTooLong) <==> name != "" && Utf8Len(name) > 50
    ensures r.Fail? ==> r.error in {LabelNameEmpty, LabelNameTooLong, LabelNameNotPrintable}
  {
    if name == "" then Fail(LabelNameEmpty)
    else if Utf8Len(name) > 50 then Fail(LabelNameTooLong)
    else if !AllPrintable(name, isPrint) then Fail(LabelNameNotPrintable)
    else Pass
  }

  /** ValidateNWO: `owner/repo` with exactly one slash and a non-empty run of
      `[A-Za-z0-9._-]` on each side. Dots are allowed on either side, so
      `../x` is accepted; only a second slash is refused. */
  function ValidateNWO(nwo: string): (r: Outcome<ValidationError>)
    ensures r == Fail(NwoEmpty) <==> nwo == ""
    ensures r.Fail? ==> r.error in {NwoEmpty, NwoInvalid(nwo)}
  {
    if nwo == "" then Fail(NwoEmpty)
    else if !Matches(NwoPattern, nwo) then Fail(NwoInvalid(nwo))
    else Pass
  }

  /** What ValidateNWO accepts: exactly the strings with one slash splitting
      them into two non-empty runs of name characters. */
  lemma NwoAccepted(nwo: string)
    ensures ValidateNWO(nwo).Pass? <==> exists k :: NwoSplitAt(nwo, k)
  {
    NwoPatternMeaning(nwo);
  }

  /** ValidateBranchName: non-empty, at most 255 bytes, over `[A-Za-z0-9._/-]`. */
  function ValidateBranchName(name: string): (r: Outcome<ValidationError>)
    ensures r == Fail(BranchNameEmpty) <==> name == ""
    ensures r == Fail(BranchNameTooLong) <==> name != "" && Utf8Len(name) > 255
    ensures r.Fail? ==> r.error in {BranchNameEmpty, BranchNameTooLong, BranchNameInvalid(name)}
  {
    if name == "" then Fail(BranchNameEmpty)
    else if Utf8Len(name) > 255 then Fail(BranchNameTooLong)
    else if !Matches(BranchNamePattern, name) then Fail(BranchNameInvalid(name))
    else Pass
  }

  /** What ValidateBranchName accepts: 1 to 255 branch characters (all ASCII,
      so the byte limit is the length limit). */
  lemma BranchNameAccepted(name: string)
    ensures ValidateBranchName(name).Pass? <==> 1 <= |name| <= 255 && forall i :: 0 <= i < |name| ==> IsBranchChar(name[i])
  {
    BranchNamePatternMeaning(name);
    assert Matches(BranchNamePattern, name) ==> IsAscii(name);
  }

  /** ValidateDescription: at most 350 bytes; the empty description is fine. */
  function ValidateDescription(desc: string): (r: Outcome<ValidationError>)
    ensures r.Pass? <==> Utf8Len(desc) <= 350
    ensures IsAscii(desc) ==> (r.Pass? <==> |desc| <= 350)
    ensures |desc| <= 87 ==> r.Pass?
    ensures r.Fail? ==> r.error == DescriptionTooLong
  {
    if Utf8Len(desc) > 350 then Fail(DescriptionTooLong) else Pass
  }

  // ----- whole-profile validation -----

  predicate LabelOk(l: Label, isPrint: char -> bool) {
    ValidateLabelName(l.name, isPrint).Pass? && ValidateLabelColor(l.color).Pass?
  }

  /** The error ValidateProfile reports for one label, checking the name first. */
  function LabelError(profile: string, l: Label, isPrint: char -> bool): Outcome<ProfileError> {
    match ValidateLabelName(l.name, isPrint)
    case Fail(e) => Fail(BadLabelName(profile, e))
    case Pass =>
      match ValidateLabelColor(l.color)
      case Fail(e) => Fail(BadLabelColor(profile, l.name, e))
      case Pass => Pass
  }

  /** The label loop of ValidateProfile: the first failing label, in order. */
  function CheckLabels(profile: string, items: seq<Label>, isPrint: char -> bool): (r: Outcome<ProfileError>)
    ensures r.Pass? <==> forall i :: 0 <= i < |items| ==> LabelOk(items[i], isPrint)
    ensures r.Fail? ==> exists k :: 0 <= k < |items| && r == LabelError(profile, items[k], isPrint)
                                    && forall i :: 0 <= i < k ==> LabelOk(items[i], isPrint)
  {
    if items == [] then Pass
    else
      var here := LabelError(profile, items[0], isPrint);
      if here.Fail? then here
      else
        var rest := CheckLabels(profile, items[1..], isPrint);
        assert forall i :: 1 <= i < |items| ==> items[1..][i - 1] == items[i];
        if rest.Fail? then
          var k :| 0 <= k < |items[1..]| && rest == LabelError(profile, items[1..][k], isPrint)
                   && forall i :: 0 <= i < k ==> LabelOk(items[1..][i], isPrint);
          assert forall i :: 0 <= i < k + 1 ==> LabelOk(items[i], isPrint);
          rest
        else rest
  }

  predicate FileOk(f: BoilerplateFile) {
    f.src != "" && f.dest != ""
  }

  /** The boilerplate loop of ValidateProfile: the first file with an empty
      `src` or `dest`, `src` being checked first. */
  function CheckFiles(profile: string, files: seq<BoilerplateFile>): (r: Outcome<ProfileError>)
    ensures r.Pass? <==> forall i :: 0 <= i < |files| ==> FileOk(files[i])
    ensures r.Fail? ==> exists k :: 0 <= k < |files| && !FileOk(files[k])
                                    && (forall i :: 0 <= i < k ==> FileOk(files[i]))
                                    && r.error == (if files[k].src == "" then EmptySrc(profile) else EmptyDest(profile))
  {
    if files == [] then Pass
    else if files[0].src == "" then Fail(EmptySrc(profile))
    else if files[0].dest == "" then Fail(EmptyDest(profile))
    else
      var rest := CheckFiles(profile, files[1..]);
      assert forall i :: 1 <= i < |files| ==> files[1..][i - 1] == files[i];
      if rest.Fail? then
        var k :| 0 <= k < |files[1..]| && !FileOk(files[1..][k])
                 && (forall i :: 0 <= i < k ==> FileOk(files[1..][i]))
                 && rest.error == (if files[1..][k].src == "" then EmptySrc(profile) else EmptyDest(profile));
        assert forall i :: 0 <= i < k + 1 ==> FileOk(files[i]);
        rest
      else rest
  }

  /** Everything ValidateProfile demands of a profile. */
  predicate ProfileOk(name: string, p: Profile, isPrint: char -> bool) {
    && ValidateProfileName(name).Pass?
    && (forall i :: 0 <= i < |p.labels.items| ==> LabelOk(p.labels.items[i], isPrint))
    && (forall i :: 0 <= i < |p.boilerplate.files| ==> FileOk(p.boilerplate.files[i]))
    && (p.branchProtection.branch != "" ==>
          ValidateBranchName(p.branchProtection.branch).Pass?
          && 0 <= p.branchProtection.requiredReviews <= 6)
  }

  /** ValidateProfile: the profile name, then each label (name before colour),
      then each boilerplate file (src before dest), then, only when a branch
      is configured, the branch name and the review bound 0..6. The first
      failing check is reported. */
  function ValidateProfile(name: string, p: Profile, isPrint: char -> bool): (r: Outcome<ProfileError>)
    ensures r.Pass? <==> ProfileOk(name, p, isPrint)
    ensures ValidateProfileName(name).Fail? ==> r == Fail(BadProfileName(ValidateProfileName(name).error))
    ensures r.Fail? && r.error.BadProfileName? ==> ValidateProfileName(name).Fail?
    ensures r.Fail? && (r.error.BadLabelName? || r.error.BadLabelColor?) ==>
              ValidateProfileName(name).Pass? && r == CheckLabels(name, p.labels.items, isPrint)
    ensures r.Fail? && (r.error.EmptySrc? || r.error.EmptyDest?) ==>
              && ValidateProfileName(name).Pass?
              && (forall i :: 0 <= i < |p.labels.items| ==> LabelOk(p.labels.items[i], isPrint))
              && r == CheckFiles(name, p.boilerplate.files)
    ensures r.Fail? && (r.error.BadBranch? || r.error.ReviewsOutOfRange?) ==>
              && ValidateProfileName(name).Pass?
              && (forall i :: 0 <= i < |p.labels.items| ==> LabelOk(p.labels.items[i], isPrint))
              && (forall i :: 0 <= i < |p.boilerplate.files| ==> FileOk(p.boilerplate.files[i]))
              && p.branchProtection.branch != ""
    ensures r.Fail? && r.error.ReviewsOutOfRange? ==>
              ValidateBranchName(p.branchProtection.branch).Pass?
              && !(0 <= p.branchProtection.requiredReviews <= 6)
    ensures r.Fail? && r.error.BadBranch? ==>
              ValidateBranchName(p.branchProtection.branch).Fail?
              && r.error.cause == ValidateBranchName(p.branchProtection.branch).error
  {
    match ValidateProfileName(name)
    case Fail(e) => Fail(BadProfileName(e))
    case Pass =>
      var labels := CheckLabels(name, p.labels.items, isPrint);
      if labels.Fail? then labels
      else
        var files := CheckFiles(name, p.boilerplate.files);
        if files.Fail? then files
        else if p.branchProtection.branch != "" then
          match ValidateBranchName(p.branchProtection.branch)
          case Fail(e) => Fail(BadBranch(name, e))
          case Pass =>
            if p.branchProtection.requiredReviews < 0 || p.branchProtection.requiredReviews > 6 then
              Fail(ReviewsOutOfRange(name))
            else Pass
        else Pass
  }

  // ----- consequences the tests rely on -----

  /** An `owner/repo` identifier that passes has exactly one slash. */
  lemma NwoHasOneSlash(s: string, i: int, j: int)
    requires ValidateNWO(s).Pass?
    requires 0 <= i < |s| && 0 <= j < |s| && s[i] == '/' && s[j] == '/'
    ensures i == j
  {
    NwoAccepted(s);
    var k :| NwoSplitAt(s, k);
  }

  /** Two slashes anywhere are refused (`owner//repo`, `owner/../../etc`, `owner/repo/x/`). */
  lemma NwoRejectsTwoSlashes(s: string, i: int, j: int)
    requires 0 <= i < j < |s| && s[i] == '/' && s[j] == '/'
    ensures ValidateNWO(s).Fail?
  {
    if ValidateNWO(s).Pass? {
      NwoHasOneSlash(s, i, j);
    }
  }

  /** A leading or trailing slash is refused (`/repo`, `owner/repo/`, `/`). */
  lemma NwoRejectsEdgeSlash(s: string)
    requires |s| > 0 && (s[0] == '/' || s[|s| - 1] == '/')
    ensures ValidateNWO(s).Fail?
  {
    NwoAccepted(s);
  }

  /** The identifier check is a pattern, not a path check: `../x` passes. */
  lemma NwoAcceptsDotDotOwner()
    ensures ValidateNWO("../x").Pass?
  {
    assert NwoSplitAt("../x", 2);
    NwoAccepted("../x");
  }

  lemma NwoExamples()
    ensures ValidateNWO("owner/repo").Pass?
  {
    assert NwoSplitAt("owner/repo", 5);
    NwoAccepted("owner/repo");
  }

  lemma NwoNeedsSlash()
    ensures ValidateNWO("ownerrepo").Fail?
  {
    var s := "ownerrepo";
    NwoAccepted(s);
    assert forall i :: 0 <= i < |s| ==> s[i] != '/';
  }

  lemma NwoSlashExamples()
    ensures ValidateNWO("owner//repo").Fail?
    ensures ValidateNWO("owner/repo/").Fail?
    ensures ValidateNWO("/repo").Fail?
    ensures ValidateNWO("/").Fail?
    ensures ValidateNWO("owner/../../etc").Fail?
  {
    NwoRejectsTwoSlashes("owner//repo", 5, 6);
    NwoRejectsEdgeSlash("owner/repo/");
    NwoRejectsEdgeSlash("/repo");
    NwoRejectsEdgeSlash("/");
    NwoRejectsTwoSlashes("owner/../../etc", 5, 8);
  }

  lemma RepoNameExamples()
    ensures ValidateRepoName("my-repo").Pass?
  {
    var s := "my-repo";
    assert forall i :: 0 <= i < |s| ==> IsNameChar(s[i]) && s[i] as int < 0x80;
    assert IsAscii(s) && Utf8Len(s) == 7;
  }

  lemma RepoNameNoSpace()
    ensures ValidateRepoName("my repo").Fail?
  {
    assert !IsNameChar(' ');
    assert "my repo"[2] == ' ';
  }

  lemma RepoNameFirstCharExamples()
    ensures ValidateRepoName(".hidden").Fail?
    ensures ValidateRepoName("-repo").Fail?
    ensures ValidateRepoName("../evil").Fail?
  {
    assert !IsAsciiAlnum('.') && !IsAsciiAlnum('-');
  }

  lemma LabelColorExamples()
    ensures ValidateLabelColor("d73a4a").Pass?
    ensures ValidateLabelColor("#d73a4a").Fail?
    ensures ValidateLabelColor("d73a4").Fail?
    ensures ValidateLabelColor("zzzzzz").Fail?
  {
    assert !IsHexDigit('z');
  }

  lemma BranchNameAcceptsSlash()
    ensures ValidateBranchName("feature/x").Pass?
  {
    var s := "feature/x";
    assert forall i :: 0 <= i < |s| ==> IsBranchChar(s[i]);
    BranchNameAccepted(s);
  }

  lemma BranchNameExamples()
    ensures ValidateBranchName("my branch").Fail?
    ensures ValidateBranchName("branch;evil").Fail?
  {
    assert "my branch"[2] == ' ' && !IsBranchChar(' ');
    assert "branch;evil"[6] == ';' && !IsBranchChar(';');
    BranchNameAccepted("my branch");
    BranchNameAccepted("branch;evil");
  }
}
