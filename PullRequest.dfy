/** What the bot does with a pull request: the file statistics it computes,
    the Markdown comment it renders from them, and the normalisation of the
    pull-request description into Summary / Changes / Testing sections. */
module PullRequest {
  import opened Text

  /** The pull-request actions that trigger an analysis and a description update. */
  const ActionsToProcessPr: seq<string> := ["opened", "synchronize", "reopened"]
  const ActionsToUpdateDesc: seq<string> := ["opened", "edited"]

  /** One entry of the pull request's changed-files listing. */
  datatype FileRecord = FileRecord(filename: string, additions: int, deletions: int, changes: int)

  /** The `file_types` dictionary: (extension, count) pairs in insertion order. */
  type Histogram = seq<(string, nat)>

  datatype Analysis = Analysis(
    fileCount: nat,
    fileTypes: Histogram,
    additions: int,
    deletions: int,
    totalChanges: int,
    isLargePr: bool,
    hasTests: bool)

  // ---------------------------------------------------------------------
  // Extensions

  /** The text after the last `.` (the whole string when there is none). */
  function AfterLastDot(s: string): (r: string)
    ensures '.' !in r && EndsWith(s, r)
    ensures '.' in s ==> EndsWith(s, "." + r)
    decreases |s|
  {
    if s == [] then []
    else if s[|s| - 1] == '.' then
      assert s[|s| - 1..] == "." + [];
      []
    else
      var init, last := s[..|s| - 1], s[|s| - 1];
      var r := AfterLastDot(init) + [last];
      assert s == init + [last];
      assert '.' in s ==> '.' in init;
      assert "." + r == ("." + AfterLastDot(init)) + [last];
      r
  }

  /** `filename.split('.')[-1]`, or `no_extension` when the name has no dot:
      the extension is what follows the last dot of the whole name. */
  function Extension(filename: string): (ext: string)
    ensures '.' !in filename ==> ext == "no_extension"
    ensures '.' in filename ==> '.' !in ext && EndsWith(filename, "." + ext)
  {
    if '.' in filename then AfterLastDot(filename) else "no_extension"
  }

  function Extensions(files: seq<FileRecord>): (exts: seq<string>)
    ensures |exts| == |files|
  {
    if files == [] then [] else Extensions(files[..|files| - 1]) + [Extension(files[|files| - 1].filename)]
  }

  // ---------------------------------------------------------------------
  // The extension histogram

  /** `file_types[ext] = file_types.get(ext, 0) + 1` on an insertion-ordered dict. */
  function Bump(h: Histogram, ext: string): Histogram {
    if h == [] then [(ext, 1)]
    else if h[0].0 == ext then [(ext, h[0].1 + 1)] + h[1..]
    else [h[0]] + Bump(h[1..], ext)
  }

  /** The histogram of a sequence of extensions, built in order. */
  function Tally(exts: seq<string>): Histogram {
    if exts == [] then [] else Bump(Tally(exts[..|exts| - 1]), exts[|exts| - 1])
  }

  function FileTypes(files: seq<FileRecord>): Histogram {
    Tally(Extensions(files))
  }

  function Keys(h: Histogram): (ks: seq<string>)
    ensures |ks| == |h|
  {
    if h == [] then [] else [h[0].0] + Keys(h[1..])
  }

  /** `file_types.get(ext, 0)`. */
  function CountOf(h: Histogram, ext: string): nat {
    if h == [] then 0 else if h[0].0 == ext then h[0].1 else CountOf(h[1..], ext)
  }

  function SumCounts(h: Histogram): nat {
    if h == [] then 0 else h[0].1 + SumCounts(h[1..])
  }

  predicate Distinct(xs: seq<string>) {
    forall i, j | 0 <= i < j < |xs| :: xs[i] != xs[j]
  }

  /** The position of the first occurrence of `e`. */
  function FirstIndex(xs: seq<string>, e: string): (i: nat)
    requires e in xs
    ensures i < |xs| && xs[i] == e && e !in xs[..i]
  {
    if xs[0] == e then 0
    else
      var i := 1 + FirstIndex(xs[1..], e);
      assert xs[..i] == [xs[0]] + xs[1..][..i - 1];
      i
  }

  lemma FirstIndexUnique(xs: seq<string>, e: string, i: nat)
    requires i < |xs| && xs[i] == e && e !in xs[..i]
    ensures FirstIndex(xs, e) == i
  {
  }

  lemma {:induction false} BumpCount(h: Histogram, ext: string, e: string)
    ensures CountOf(Bump(h, ext), e) == CountOf(h, e) + (if e == ext then 1 else 0)
  {
    if h != [] && h[0].0 != ext {
      BumpCount(h[1..], ext, e);
    }
  }

  lemma {:induction false} BumpSum(h: Histogram, ext: string)
    ensures SumCounts(Bump(h, ext)) == SumCounts(h) + 1
  {
    if h != [] && h[0].0 != ext {
      BumpSum(h[1..], ext);
    }
  }

  lemma {:induction false} BumpKeys(h: Histogram, ext: string)
    ensures Keys(Bump(h, ext)) == if ext in Keys(h) then Keys(h) else Keys(h) + [ext]
  {
    if h != [] {
      if h[0].0 != ext {
        BumpKeys(h[1..], ext);
        assert Keys(h) == [h[0].0] + Keys(h[1..]);
      }
    }
  }

  /** Each histogram entry counts exactly the files with that extension. */
  lemma {:induction false} TallyCounts(exts: seq<string>, e: string)
    ensures CountOf(Tally(exts), e) == multiset(exts)[e]
  {
    if exts != [] {
      var init, last := exts[..|exts| - 1], exts[|exts| - 1];
      TallyCounts(init, e);
      BumpCount(Tally(init), last, e);
      assert exts == init + [last];
    }
  }

  /** The counts add up to the number of files. */
  lemma {:induction false} TallyTotal(exts: seq<string>)
    ensures SumCounts(Tally(exts)) == |exts|
  {
    if exts != [] {
      TallyTotal(exts[..|exts| - 1]);
      BumpSum(Tally(exts[..|exts| - 1]), exts[|exts| - 1]);
    }
  }

  /** The histogram has an entry for exactly the extensions that occur. */
  lemma {:induction false} TallyKeysMembers(exts: seq<string>)
    ensures forall e :: e in Keys(Tally(exts)) <==> e in exts
  {
    if exts != [] {
      var init, last := exts[..|exts| - 1], exts[|exts| - 1];
      assert exts == init + [last];
      TallyKeysMembers(init);
      BumpKeys(Tally(init), last);
    }
  }

  /** No extension has two entries. */
  lemma {:induction false} TallyKeysDistinct(exts: seq<string>)
    ensures Distinct(Keys(Tally(exts)))
  {
    if exts != [] {
      var init, last := exts[..|exts| - 1], exts[|exts| - 1];
      TallyKeysDistinct(init);
      BumpKeys(Tally(init), last);
    }
  }

  /** Appending an element does not move an earlier first occurrence. */
  lemma FirstIndexAppend(xs: seq<string>, x: string, e: string)
    requires e in xs
    ensures FirstIndex(xs + [x], e) == FirstIndex(xs, e)
  {
    var i := FirstIndex(xs, e);
    assert (xs + [x])[..i] == xs[..i];
    FirstIndexUnique(xs + [x], e, i);
  }

  /** The entries are in the order in which the extensions first occur. */
  lemma {:induction false} TallyKeysOrdered(exts: seq<string>)
    ensures forall j, k | 0 <= j < k < |Keys(Tally(exts))| ::
              && Keys(Tally(exts))[j] in exts && Keys(Tally(exts))[k] in exts
              && FirstIndex(exts, Keys(Tally(exts))[j]) < FirstIndex(exts, Keys(Tally(exts))[k])
  {
    if exts != [] {
      var init, last := exts[..|exts| - 1], exts[|exts| - 1];
      assert exts == init + [last];
      TallyKeysOrdered(init);
      TallyKeysMembers(init);
      BumpKeys(Tally(init), last);
      var ks0, ks := Keys(Tally(init)), Keys(Tally(exts));
      forall j, k | 0 <= j < k < |ks|
        ensures ks[j] in exts && ks[k] in exts && FirstIndex(exts, ks[j]) < FirstIndex(exts, ks[k])
      {
        assert ks[j] == ks0[j] && ks0[j] in init;
        FirstIndexAppend(init, last, ks[j]);
        if k < |ks0| {
          assert ks[k] == ks0[k];
          FirstIndexAppend(init, last, ks[k]);
        } else {
          assert ks[k] == last && last !in init;
          assert exts[..|init|] == init;
          FirstIndexUnique(exts, last, |init|);
        }
      }
    }
  }

  // ---------------------------------------------------------------------
  // analyze_pr_content

  datatype Field = Additions | Deletions | Changes

  function FieldOf(f: FileRecord, field: Field): int {
    match field
    case Additions => f.additions
    case Deletions => f.deletions
    case Changes => f.changes
  }

  function Sum(files: seq<FileRecord>, field: Field): int {
    if files == [] then 0 else Sum(files[..|files| - 1], field) + FieldOf(files[|files| - 1], field)
  }

  /** Some file name, lower-cased, contains `test`. */
  predicate HasTestFile(files: seq<FileRecord>) {
    exists i | 0 <= i < |files| :: Contains(LowerAscii(files[i].filename), "test")
  }

  /** One pass over the files: the extension histogram and the three sums,
      then the large-PR and test-file flags. */
  method AnalyzePrContent(files: seq<FileRecord>) returns (a: Analysis)
    ensures a.fileCount == |files|
    ensures a.fileTypes == FileTypes(files)
    ensures a.additions == Sum(files, Additions)
    ensures a.deletions == Sum(files, Deletions)
    ensures a.totalChanges == Sum(files, Changes)
    ensures a.isLargePr <==> a.totalChanges > 500
    ensures a.hasTests <==> HasTestFile(files)
  {
    var fileTypes: Histogram := [];
    var totalAdditions, totalDeletions, totalChanges := 0, 0, 0;
    for i := 0 to |files|
      invariant fileTypes == Tally(Extensions(files[..i]))
      invariant totalAdditions == Sum(files[..i], Additions)
      invariant totalDeletions == Sum(files[..i], Deletions)
      invariant totalChanges == Sum(files[..i], Changes)
    {
      assert files[..i + 1][..i] == files[..i];
      var ext := Extension(files[i].filename);
      fileTypes := Bump(fileTypes, ext);
      totalAdditions := totalAdditions + files[i].additions;
      totalDeletions := totalDeletions + files[i].deletions;
      totalChanges := totalChanges + files[i].changes;
    }
    assert files[..|files|] == files;
    var isLargePr := totalChanges > 500;
    var hasTests := HasTestFile(files);
    a := Analysis(|files|, fileTypes, totalAdditions, totalDeletions, totalChanges, isLargePr, hasTests);
  }

  /** What the analysis reports about its histogram, in the files' own terms. */
  lemma FileTypesDescribeFiles(files: seq<FileRecord>)
    ensures SumCounts(FileTypes(files)) == |files|
    ensures Distinct(Keys(FileTypes(files)))
    ensures forall e :: CountOf(FileTypes(files), e) == multiset(Extensions(files))[e]
    ensures forall e :: e in Keys(FileTypes(files)) <==> e in Extensions(files)
  {
    TallyTotal(Extensions(files));
    TallyKeysMembers(Extensions(files));
    TallyKeysDistinct(Extensions(files));
    forall e ensures CountOf(FileTypes(files), e) == multiset(Extensions(files))[e] {
      TallyCounts(Extensions(files), e);
    }
  }

  // ---------------------------------------------------------------------
  // create_pr_comment

  const CommentHeader: string := "## PR Analysis Results\n\n"
  const SuggestionsHeading: string := "\n### Suggestions\n"
  /** The warnings open with an emoji (warning sign with its variation
      selector; memo) and a space. */
  const LargePrWarning: string :=
    "\U{26A0}\U{FE0F} " + "**This is a large PR.** Consider breaking it down into smaller PRs.\n"
  const NoTestsWarning: string :=
    "\U{1F4DD} " + "**No test files detected.** Consider adding tests for your changes.\n"

  function TypeLine(entry: (string, nat)): string {
    "- " + entry.0 + ": " + IntToString(entry.1) + "\n"
  }

  /** `text` followed by one `- ext: count` line per histogram entry, in order. */
  function WithTypeLines(text: string, h: Histogram): string {
    if h == [] then text else WithTypeLines(text, h[..|h| - 1]) + TypeLine(h[|h| - 1])
  }

  function FilesChangedLine(a: Analysis): string {
    "**Files changed:** " + IntToString(a.fileCount) + "\n"
  }

  function TotalChangesText(a: Analysis): string {
    "**Total changes:** " + IntToString(a.totalChanges) + " "
  }

  function AddedDeletedText(a: Analysis): string {
    "(+" + IntToString(a.additions) + ", -" + IntToString(a.deletions) + ")\n\n"
  }

  /** The header, the statistics lines and the heading of the extension list. */
  function CommentPreamble(a: Analysis): string {
    CommentHeader + FilesChangedLine(a) + TotalChangesText(a) + AddedDeletedText(a) + "**File types:**\n"
  }

  /** Everything up to the Suggestions heading included. */
  function CommentBody(a: Analysis): string {
    WithTypeLines(CommentPreamble(a), a.fileTypes) + SuggestionsHeading
  }

  predicate WarnsLarge(a: Analysis) {
    a.isLargePr
  }

  predicate WarnsNoTests(a: Analysis) {
    !a.hasTests && a.fileCount > 1
  }

  function Comment(a: Analysis): string {
    var withLarge := if WarnsLarge(a) then CommentBody(a) + LargePrWarning else CommentBody(a);
    if WarnsNoTests(a) then withLarge + NoTestsWarning else withLarge
  }

  /** Builds the comment piece by piece, one line per histogram entry. */
  method CreatePrComment(a: Analysis) returns (comment: string)
    ensures comment == Comment(a)
  {
    comment := CommentHeader;
    comment := comment + ("**Files changed:** " + IntToString(a.fileCount) + "\n");
    comment := comment + ("**Total changes:** " + IntToString(a.totalChanges) + " ");
    comment := comment + ("(+" + IntToString(a.additions) + ", -" + IntToString(a.deletions) + ")\n\n");
    comment := comment + "**File types:**\n";
    for i := 0 to |a.fileTypes|
      invariant comment == WithTypeLines(CommentPreamble(a), a.fileTypes[..i])
    {
      var (ext, count) := a.fileTypes[i];
      assert a.fileTypes[..i + 1][..i] == a.fileTypes[..i];
      comment := comment + ("- " + ext + ": " + IntToString(count) + "\n");
    }
    assert a.fileTypes[..|a.fileTypes|] == a.fileTypes;
    comment := comment + SuggestionsHeading;
    if a.isLargePr {
      comment := comment + LargePrWarning;
    }
    if !a.hasTests && a.fileCount > 1 {
      comment := comment + NoTestsWarning;
    }
  }

  lemma {:induction false} WithTypeLinesAppend(text: string, h: Histogram, g: Histogram)
    ensures WithTypeLines(text, h + g) == WithTypeLines(WithTypeLines(text, h), g)
    decreases |g|
  {
    if g == [] {
      assert h + g == h;
    } else {
      var init, last := g[..|g| - 1], g[|g| - 1];
      WithTypeLinesAppend(text, h, init);
      assert (h + g)[..|h + g| - 1] == h + init;
      assert (h + g)[|h + g| - 1] == last;
    }
  }

  /** The lines only ever extend the text they are appended to. */
  lemma {:induction false} WithTypeLinesExtends(text: string, h: Histogram)
    ensures StartsWith(WithTypeLines(text, h), text)
  {
    if h != [] {
      WithTypeLinesExtends(text, h[..|h| - 1]);
      OccursAtAppend(WithTypeLines(text, h[..|h| - 1]), text, 0, TypeLine(h[|h| - 1]));
    }
  }

  /** The comment extends its body, and adds exactly the warnings that apply:
      the large-PR warning right after the Suggestions heading iff the PR is
      large, the missing-tests warning at the very end iff no file name
      mentions tests and more than one file changed. */
  lemma CommentSuggestions(a: Analysis)
    ensures StartsWith(Comment(a), CommentBody(a))
    ensures EndsWith(CommentBody(a), SuggestionsHeading)
    ensures |Comment(a)| == |CommentBody(a)| + (if WarnsLarge(a) then |LargePrWarning| else 0)
                           + (if WarnsNoTests(a) then |NoTestsWarning| else 0)
    ensures OccursAt(Comment(a), LargePrWarning, |CommentBody(a)|) <==> WarnsLarge(a)
    ensures EndsWith(Comment(a), NoTestsWarning) <==> WarnsNoTests(a)
  {
    var body, c := CommentBody(a), Comment(a);
    var withLarge := if WarnsLarge(a) then body + LargePrWarning else body;
    assert withLarge[..|body|] == body;
    assert c[..|withLarge|] == withLarge;
    assert c[..|body|] == body;
    assert body[|body| - |SuggestionsHeading|..] == SuggestionsHeading;
    if WarnsLarge(a) {
      assert c[|body|..|body| + |LargePrWarning|] == withLarge[|body|..] == LargePrWarning;
    }
    if WarnsNoTests(a) {
      assert c[|c| - |NoTestsWarning|..] == NoTestsWarning;
    } else if WarnsLarge(a) {
      assert c[|c| - |NoTestsWarning|..][0] == LargePrWarning[1] != NoTestsWarning[0];
    } else {
      assert c[|c| - 2] == SuggestionsHeading[15] != NoTestsWarning[|NoTestsWarning| - 2];
    }
  }

  /** The comment opens with its title. */
  lemma CommentOpensWithHeader(a: Analysis)
    ensures OccursAt(Comment(a), CommentHeader, 0)
  {
    var x1 := CommentHeader + FilesChangedLine(a);
    var x2 := x1 + TotalChangesText(a);
    var x3 := x2 + AddedDeletedText(a);
    var p := CommentPreamble(a);
    var wh := WithTypeLines(p, a.fileTypes);
    OccursInConcat(CommentHeader, FilesChangedLine(a));
    OccursAtAppend(x1, CommentHeader, 0, TotalChangesText(a));
    OccursAtAppend(x2, CommentHeader, 0, AddedDeletedText(a));
    OccursAtAppend(x3, CommentHeader, 0, "**File types:**\n");
    WithTypeLinesExtends(p, a.fileTypes);
    OccursAtPrefix(wh, p, CommentHeader, 0);
    OccursAtAppend(wh, CommentHeader, 0, SuggestionsHeading);
    CommentSuggestions(a);
    OccursAtPrefix(Comment(a), CommentBody(a), CommentHeader, 0);
  }

  /** The comment lists every histogram entry as a `- ext: count` line, each
      at its own offset, in histogram order. */
  lemma CommentListsFileTypes(a: Analysis, j: nat)
    requires j < |a.fileTypes|
    ensures OccursAt(Comment(a), TypeLine(a.fileTypes[j]), |WithTypeLines(CommentPreamble(a), a.fileTypes[..j])|)
    ensures j + 1 < |a.fileTypes| ==>
              |WithTypeLines(CommentPreamble(a), a.fileTypes[..j])|
              < |WithTypeLines(CommentPreamble(a), a.fileTypes[..j + 1])|
  {
    var h, p := a.fileTypes, CommentPreamble(a);
    var before, rest := h[..j + 1], h[j + 1..];
    assert h == before + rest;
    assert before[..j] == h[..j];
    var upTo, line := WithTypeLines(p, h[..j]), TypeLine(h[j]);
    var wh, wb := WithTypeLines(p, h), WithTypeLines(p, before);
    assert wb == upTo + line;
    OccursInConcat(upTo, line);
    WithTypeLinesAppend(p, before, rest);
    WithTypeLinesExtends(wb, rest);
    OccursAtPrefix(wh, wb, line, |upTo|);
    OccursAtAppend(wh, line, |upTo|, SuggestionsHeading);
    CommentSuggestions(a);
    OccursAtPrefix(Comment(a), CommentBody(a), line, |upTo|);
  }

  // ---------------------------------------------------------------------
  // needs_description_formatting and format_pr_description

  /** A second-level Markdown heading. */
  function Heading(name: string): string {
    "## " + name
  }

  lemma HeadingShape(name: string)
    ensures var h := Heading(name);
      |h| == |name| + 3 && h[0] == '#' && h[1] == '#' && h[2] == ' ' && h[3..] == name
  {
  }

  /** `needs_description_formatting`: an empty description, or one lacking
      any of the three headings spelled exactly (case-sensitive), needs
      formatting. When it reports that none is needed, the formatter's
      case-insensitive search finds every section, so formatting leaves the
      description as it is. */
  function NeedsDescriptionFormatting(description: string): (needed: bool)
    ensures needed <==> || description == ""
                        || !Contains(description, Heading("Summary"))
                        || !Contains(description, Heading("Changes"))
                        || !Contains(description, Heading("Testing"))
    ensures !needed ==> && HasSection(description, "Summary")
                        && HasSection(description, "Changes")
                        && HasSection(description, "Testing")
    ensures !needed ==> FormattedDescription(description) == description
  {
    if description == "" then true
    else if && Contains(description, Heading("Summary"))
            && Contains(description, Heading("Changes"))
            && Contains(description, Heading("Testing")) then
      ExactHeadingIsSection(description, "Summary");
      ExactHeadingIsSection(description, "Changes");
      ExactHeadingIsSection(description, "Testing");
      false
    else true
  }

  const SummaryHint: string := "\n<!-- Provide a brief summary of your changes -->"
  const ChangesHint: string := "\n<!-- List the changes you've made -->"
  const TestingHint: string := "\n<!-- Describe how you tested your changes -->"

  /** The block added in front when Summary is missing; it also opens the template. */
  const SummaryBlock: string := Heading("Summary") + SummaryHint + "\n\n"
  const ChangesPart: string := Heading("Changes") + ChangesHint + "\n- \n\n"
  const TestingPart: string := Heading("Testing") + TestingHint + "\n"

  /** The description an empty pull-request body is replaced with: the
      template's lines joined by newlines. */
  const DescriptionTemplate: string := SummaryBlock + ChangesPart + TestingPart

  /** The blocks appended when Changes or Testing is missing. */
  const ChangesBlock: string := "\n\n" + Heading("Changes") + ChangesHint + "\n- "
  const TestingBlock: string := "\n\n" + Heading("Testing") + TestingHint

  /** After the `##` at `k`, white space runs up to `w`, where the name
      follows in any ASCII case. */
  predicate NameAt(s: string, name: string, k: int, w: int) {
    0 <= k && k + 2 <= w && w + |name| <= |s| && AllSpace(s[k + 2..w]) && EqualsIgnoringCase(s[w..w + |name|], name)
  }

  /** `##\s*Name` matches at `k`. */
  predicate SectionAt(s: string, name: string, k: int) {
    && 0 <= k && k + 2 <= |s| && s[k] == '#' && s[k + 1] == '#'
    && exists w | k + 2 <= w <= |s| :: NameAt(s, name, k, w)
  }

  /** `re.search(r'##\s*Name', s, re.IGNORECASE)` finds a match. */
  predicate HasSection(s: string, name: string) {
    exists k | 0 <= k <= |s| :: SectionAt(s, name, k)
  }

  /** The three blocks the formatter may add to a description. */
  datatype Blocks = Blocks(summary: string, changes: string, testing: string)

  const AddedBlocks: Blocks := Blocks(SummaryBlock, ChangesBlock, TestingBlock)

  /** A non-empty description with the blocks for the sections it lacks
      added: Summary in front, then Changes and Testing at the end. */
  function FormatWith(description: string, hasSummary: bool, hasChanges: bool, hasTesting: bool, b: Blocks): string {
    var withSummary := if hasSummary then description else b.summary + description;
    var withChanges := if hasChanges then withSummary else withSummary + b.changes;
    if hasTesting then withChanges else withChanges + b.testing
  }

  /** `format_pr_description`: an empty description becomes the template,
      any other gets the blocks for the sections the search does not find. */
  function FormattedDescription(description: string): string {
    if description == "" then DescriptionTemplate
    else FormatWith(description, HasSection(description, "Summary"),
                    HasSection(description, "Changes"), HasSection(description, "Testing"), AddedBlocks)
  }

  /** Reassigns the description step by step, as the source does. */
  method FormatPrDescription(description: string) returns (newDescription: string)
    ensures newDescription == FormattedDescription(description)
  {
    if description == "" {
      return DescriptionTemplate;
    }
    var hasSummary := HasSection(description, "Summary");
    var hasChanges := HasSection(description, "Changes");
    var hasTesting := HasSection(description, "Testing");
    newDescription := description;
    if !hasSummary {
      newDescription := SummaryBlock + newDescription;
    }
    if !hasChanges {
      newDescription := newDescription + ChangesBlock;
    }
    if !hasTesting {
      newDescription := newDescription + TestingBlock;
    }
  }

  /** The formatter keeps the original text whole, right after the Summary
      block when it adds one, and adds nothing but the missing blocks. */
  lemma FormatWithKeepsText(description: string, hasSummary: bool, hasChanges: bool, hasTesting: bool, b: Blocks)
    ensures OccursAt(FormatWith(description, hasSummary, hasChanges, hasTesting, b), description,
                     if hasSummary then 0 else |b.summary|)
    ensures |FormatWith(description, hasSummary, hasChanges, hasTesting, b)|
         == |description| + (if hasSummary then 0 else |b.summary|)
            + (if hasChanges then 0 else |b.changes|) + (if hasTesting then 0 else |b.testing|)
  {
    var front := if hasSummary then 0 else |b.summary|;
    var withSummary := if hasSummary then description else b.summary + description;
    var withChanges := if hasChanges then withSummary else withSummary + b.changes;
    if hasSummary {
      OccursWhole(description);
    } else {
      OccursInConcat(b.summary, description);
    }
    if !hasChanges {
      OccursAtAppend(withSummary, description, front, b.changes);
    }
    if !hasTesting {
      OccursAtAppend(withChanges, description, front, b.testing);
    }
  }

  /** A missing Summary section is added in front of the text. */
  lemma FormatWithAddsSummary(description: string, hasSummary: bool, hasChanges: bool, hasTesting: bool, b: Blocks)
    requires !hasSummary
    ensures OccursAt(FormatWith(description, hasSummary, hasChanges, hasTesting, b), b.summary, 0)
  {
    var withSummary := b.summary + description;
    var withChanges := if hasChanges then withSummary else withSummary + b.changes;
    OccursInConcat(b.summary, description);
    if !hasChanges {
      OccursAtAppend(withSummary, b.summary, 0, b.changes);
    }
    if !hasTesting {
      OccursAtAppend(withChanges, b.summary, 0, b.testing);
    }
  }

  /** A missing Changes section is added right after the text. */
  lemma FormatWithAddsChanges(description: string, hasSummary: bool, hasChanges: bool, hasTesting: bool, b: Blocks)
    requires !hasChanges
    ensures OccursAt(FormatWith(description, hasSummary, hasChanges, hasTesting, b), b.changes,
                     (if hasSummary then 0 else |b.summary|) + |description|)
  {
    var withSummary := if hasSummary then description else b.summary + description;
    var withChanges := withSummary + b.changes;
    OccursInConcat(withSummary, b.changes);
    if !hasTesting {
      OccursAtAppend(withChanges, b.changes, |withSummary|, b.testing);
    }
  }

  /** A missing Testing section closes the text. */
  lemma FormatWithAddsTesting(description: string, hasSummary: bool, hasChanges: bool, hasTesting: bool, b: Blocks)
    requires !hasTesting
    ensures var r := FormatWith(description, hasSummary, hasChanges, hasTesting, b);
      OccursAt(r, b.testing, |r| - |b.testing|)
  {
    var withSummary := if hasSummary then description else b.summary + description;
    var withChanges := if hasChanges then withSummary else withSummary + b.changes;
    OccursInConcat(withChanges, b.testing);
  }

  /** A match survives when the text it is in occurs inside a larger text. */
  lemma SectionInside(s: string, name: string, t: string, d: int)
    requires HasSection(s, name) && OccursAt(t, s, d)
    ensures HasSection(t, name)
  {
    var k :| 0 <= k <= |s| && SectionAt(s, name, k);
    var w :| k + 2 <= w <= |s| && NameAt(s, name, k, w);
    assert t[d..d + |s|] == s;
    assert t[d + k] == s[k] && t[d + k + 1] == s[k + 1];
    SliceOfOccurrence(t, s, d, k + 2, w);
    SliceOfOccurrence(t, s, d, w, w + |name|);
    assert NameAt(t, name, d + k, d + w);
    assert SectionAt(t, name, d + k);
  }

  /** A heading `## name`, spelled in any ASCII case, is found by the search. */
  lemma HeadingIsSection(s: string, spelled: string, name: string, k: int)
    requires OccursAt(s, Heading(spelled), k) && EqualsIgnoringCase(spelled, name)
    ensures HasSection(s, name)
  {
    var h := Heading(spelled);
    HeadingShape(spelled);
    assert s[k..k + |h|] == h;
    assert s[k] == h[0] && s[k + 1] == h[1] && s[k + 2] == h[2];
    assert s[k + 2..k + 3] == [' '];
    assert s[k + 3..k + 3 + |spelled|] == h[3..] == spelled;
    assert NameAt(s, name, k, k + 3);
    assert SectionAt(s, name, k);
  }

  /** A heading spelled exactly is a section the search finds. */
  lemma ExactHeadingIsSection(s: string, name: string)
    requires Contains(s, Heading(name))
    ensures HasSection(s, name)
  {
    var k :| 0 <= k <= |s| - |Heading(name)| && OccursAt(s, Heading(name), k);
    HeadingIsSection(s, name, name, k);
  }

  /** Each block the formatter adds carries the heading the search looks for. */
  lemma HeadingsInBlocks()
    ensures HasSection(AddedBlocks.summary, "Summary")
    ensures HasSection(AddedBlocks.changes, "Changes")
    ensures HasSection(AddedBlocks.testing, "Testing")
  {
    var summary, changes, testing := Heading("Summary"), Heading("Changes"), Heading("Testing");
    OccursInConcat(summary, SummaryHint);
    OccursAtAppend(summary + SummaryHint, summary, 0, "\n\n");
    HeadingIsSection(SummaryBlock, "Summary", "Summary", 0);
    OccursInConcat("\n\n", changes);
    OccursAtAppend("\n\n" + changes, changes, 2, ChangesHint);
    OccursAtAppend("\n\n" + changes + ChangesHint, changes, 2, "\n- ");
    HeadingIsSection(ChangesBlock, "Changes", "Changes", 2);
    OccursInConcat("\n\n", testing);
    OccursAtAppend("\n\n" + testing, testing, 2, TestingHint);
    HeadingIsSection(TestingBlock, "Testing", "Testing", 2);
  }

  /** The template has all three sections. */
  lemma TemplateHasAllSections()
    ensures HasSection(DescriptionTemplate, "Summary")
    ensures HasSection(DescriptionTemplate, "Changes")
    ensures HasSection(DescriptionTemplate, "Testing")
  {
    HeadingsInBlocks();
    var changes, testing := Heading("Changes"), Heading("Testing");
    OccursInConcat(changes, ChangesHint);
    OccursAtAppend(changes + ChangesHint, changes, 0, "\n- \n\n");
    HeadingIsSection(ChangesPart, "Changes", "Changes", 0);
    OccursInConcat(testing, TestingHint);
    OccursAtAppend(testing + TestingHint, testing, 0, "\n");
    HeadingIsSection(TestingPart, "Testing", "Testing", 0);
    OccursInConcat(SummaryBlock, ChangesPart);
    OccursInConcat(SummaryBlock + ChangesPart, TestingPart);
    OccursAtAppend(SummaryBlock + ChangesPart, SummaryBlock, 0, TestingPart);
    OccursAtAppend(SummaryBlock + ChangesPart, ChangesPart, |SummaryBlock|, TestingPart);
    SectionInside(SummaryBlock, "Summary", DescriptionTemplate, 0);
    SectionInside(ChangesPart, "Changes", DescriptionTemplate, |SummaryBlock|);
    SectionInside(TestingPart, "Testing", DescriptionTemplate, |SummaryBlock + ChangesPart|);
  }

  /** After formatting, each section is found: in the original text when it
      was there, in the added block otherwise. */
  lemma FormatWithFindsSummary(description: string, hasSummary: bool, hasChanges: bool, hasTesting: bool, b: Blocks)
    requires HasSection(b.summary, "Summary")
    requires hasSummary ==> HasSection(description, "Summary")
    ensures HasSection(FormatWith(description, hasSummary, hasChanges, hasTesting, b), "Summary")
  {
    var r := FormatWith(description, hasSummary, hasChanges, hasTesting, b);
    if hasSummary {
      FormatWithKeepsText(description, hasSummary, hasChanges, hasTesting, b);
      SectionInside(description, "Summary", r, 0);
    } else {
      FormatWithAddsSummary(description, hasSummary, hasChanges, hasTesting, b);
      SectionInside(b.summary, "Summary", r, 0);
    }
  }

  lemma FormatWithFindsChanges(description: string, hasSummary: bool, hasChanges: bool, hasTesting: bool, b: Blocks)
    requires HasSection(b.changes, "Changes")
    requires hasChanges ==> HasSection(description, "Changes")
    ensures HasSection(FormatWith(description, hasSummary, hasChanges, hasTesting, b), "Changes")
  {
    var r := FormatWith(description, hasSummary, hasChanges, hasTesting, b);
    var front := if hasSummary then 0 else |b.summary|;
    if hasChanges {
      FormatWithKeepsText(description, hasSummary, hasChanges, hasTesting, b);
      SectionInside(description, "Changes", r, front);
    } else {
      FormatWithAddsChanges(description, hasSummary, hasChanges, hasTesting, b);
      SectionInside(b.changes, "Changes", r, front + |description|);
    }
  }

  lemma FormatWithFindsTesting(description: string, hasSummary: bool, hasChanges: bool, hasTesting: bool, b: Blocks)
    requires HasSection(b.testing, "Testing")
    requires hasTesting ==> HasSection(description, "Testing")
    ensures HasSection(FormatWith(description, hasSummary, hasChanges, hasTesting, b), "Testing")
  {
    var r := FormatWith(description, hasSummary, hasChanges, hasTesting, b);
    if hasTesting {
      FormatWithKeepsText(description, hasSummary, hasChanges, hasTesting, b);
      SectionInside(description, "Testing", r, if hasSummary then 0 else |b.summary|);
    } else {
      FormatWithAddsTesting(description, hasSummary, hasChanges, hasTesting, b);
      SectionInside(b.testing, "Testing", r, |r| - |b.testing|);
    }
  }

  /** A non-empty description comes back whole, after the Summary block only
      when the search finds no Summary, and with nothing added but the blocks
      for the sections the search does not find. */
  lemma FormattedDescriptionKeepsText(description: string)
    requires description != ""
    ensures var front := if HasSection(description, "Summary") then 0 else |SummaryBlock|;
      && OccursAt(FormattedDescription(description), description, front)
      && |FormattedDescription(description)|
         == front + |description| + (if HasSection(description, "Changes") then 0 else |ChangesBlock|)
            + (if HasSection(description, "Testing") then 0 else |TestingBlock|)
  {
    FormatWithKeepsText(description, HasSection(description, "Summary"), HasSection(description, "Changes"),
                        HasSection(description, "Testing"), AddedBlocks);
  }

  /** Without a Summary section, the Summary block opens the result. */
  lemma FormattedDescriptionAddsSummary(description: string)
    requires description != ""
    ensures !HasSection(description, "Summary") ==> OccursAt(FormattedDescription(description), SummaryBlock, 0)
  {
    var s, c, t := HasSection(description, "Summary"), HasSection(description, "Changes"),
                   HasSection(description, "Testing");
    if !s {
      FormatWithAddsSummary(description, s, c, t, AddedBlocks);
    }
  }

  /** Without a Changes section, the Changes block follows the original text. */
  lemma FormattedDescriptionAddsChanges(description: string)
    requires description != ""
    ensures !HasSection(description, "Changes") ==>
              OccursAt(FormattedDescription(description), ChangesBlock,
                       (if HasSection(description, "Summary") then 0 else |SummaryBlock|) + |description|)
  {
    var s, c, t := HasSection(description, "Summary"), HasSection(description, "Changes"),
                   HasSection(description, "Testing");
    if !c {
      FormatWithAddsChanges(description, s, c, t, AddedBlocks);
    }
  }

  /** Without a Testing section, the Testing block closes the result. */
  lemma FormattedDescriptionAddsTesting(description: string)
    requires description != ""
    ensures !HasSection(description, "Testing") ==>
              var r := FormattedDescription(description);
              OccursAt(r, TestingBlock, |r| - |TestingBlock|)
  {
    var s, c, t := HasSection(description, "Summary"), HasSection(description, "Changes"),
                   HasSection(description, "Testing");
    if !t {
      FormatWithAddsTesting(description, s, c, t, AddedBlocks);
    }
  }

  /** Every description the formatter produces has all three sections. */
  lemma FormattedHasAllSections(description: string)
    ensures FormattedDescription(description) != ""
    ensures HasSection(FormattedDescription(description), "Summary")
    ensures HasSection(FormattedDescription(description), "Changes")
    ensures HasSection(FormattedDescription(description), "Testing")
  {
    if description == "" {
      TemplateHasAllSections();
    } else {
      var s, c, t := HasSection(description, "Summary"), HasSection(description, "Changes"),
                     HasSection(description, "Testing");
      HeadingsInBlocks();
      FormatWithFindsSummary(description, s, c, t, AddedBlocks);
      FormatWithFindsChanges(description, s, c, t, AddedBlocks);
      FormatWithFindsTesting(description, s, c, t, AddedBlocks);
      FormatWithKeepsText(description, s, c, t, AddedBlocks);
    }
  }

  /** Formatting twice is formatting once: every block the formatter inserts
      is found by its own search the second time. An empty description is
      replaced by the whole template, and one that already has all three
      sections is left as it is. */
  lemma FormatIdempotent(description: string)
    ensures FormattedDescription(FormattedDescription(description)) == FormattedDescription(description)
    ensures description == "" ==> FormattedDescription(description) == DescriptionTemplate
    ensures (HasSection(description, "Summary") && HasSection(description, "Changes")
             && HasSection(description, "Testing")) ==> FormattedDescription(description) == description
  {
    FormattedHasAllSections(description);
  }

  /** The description `## summary ## changes ## testing`. */
  function LowerCaseHeadings(): string {
    Heading("summary") + " " + Heading("changes") + " " + Heading("testing")
  }

  /** The exact-case check does not see lower-case headings. */
  lemma LowerCaseHeadingsNeedFormatting()
    ensures NeedsDescriptionFormatting(LowerCaseHeadings())
  {
    var d := LowerCaseHeadings();
    assert 'S' !in d;
    if Contains(d, Heading("Summary")) {
      ContainsHasChars(d, Heading("Summary"), 3);
    }
  }

  lemma LowerCaseNamesMatch()
    ensures EqualsIgnoringCase("summary", "Summary")
    ensures EqualsIgnoringCase("changes", "Changes")
    ensures EqualsIgnoringCase("testing", "Testing")
  {
  }

  /** The case-insensitive search finds lower-case headings. */
  lemma LowerCaseHeadingsAreSections()
    ensures HasSection(LowerCaseHeadings(), "Summary")
    ensures HasSection(LowerCaseHeadings(), "Changes")
    ensures HasSection(LowerCaseHeadings(), "Testing")
  {
    var summary, changes, testing := Heading("summary"), Heading("changes"), Heading("testing");
    var x1 := summary + " ";
    var x2 := x1 + changes;
    var x3 := x2 + " ";
    OccursInConcat(summary, " ");
    OccursAtAppend(x1, summary, 0, changes);
    OccursAtAppend(x2, summary, 0, " ");
    OccursAtAppend(x3, summary, 0, testing);
    OccursInConcat(x1, changes);
    OccursAtAppend(x2, changes, |x1|, " ");
    OccursAtAppend(x3, changes, |x1|, testing);
    OccursInConcat(x3, testing);
    assert LowerCaseHeadings() == x3 + testing;
    LowerCaseNamesMatch();
    HeadingIsSection(LowerCaseHeadings(), "summary", "Summary", 0);
    HeadingIsSection(LowerCaseHeadings(), "changes", "Changes", |x1|);
    HeadingIsSection(LowerCaseHeadings(), "testing", "Testing", |x3|);
  }

  /** The two checks disagree: lower-case headings fail the exact-case check,
      so the description is sent for formatting, and the case-insensitive
      formatter then returns it unchanged. */
  lemma CheckAndFormatDisagree()
    ensures NeedsDescriptionFormatting(LowerCaseHeadings())
    ensures FormattedDescription(LowerCaseHeadings()) == LowerCaseHeadings()
  {
    LowerCaseHeadingsNeedFormatting();
    LowerCaseHeadingsAreSections();
  }
}
