/**
  Pagination against an arbitrary provider: the commit range between two revisions and the
  changed-path projection of one commit (src/lemmamind/interval_segmentation.py).

  The provider is a function from page numbers to pages, with nothing assumed of it.
*/
module CommitPages {
  import opened Wrappers
  import opened Orders
  import opened Texts
  import opened TreeDiff
  import opened Segmentation

  datatype PageError =
    | BadStatus | BadTotal | TooManyCommits | BaseDisagrees | NotAhead | PaginationChanged | OmittedCommits
    | BadSha | EndedEarly | WrongCount | DuplicateCommits | BadFrontier
    | OmittedParents | OmittedFiles | BadPath | FileLimit | RepeatedParents

  const MAX_COMMITS := 2000
  const FILES_PAGE := 100
  const MAX_FILES := 3000

  // ----- the commit range -----

  datatype Status = Ahead | Identical

  /** One compare page; a field that is missing or of the wrong type is None. */
  datatype ComparePage = ComparePage(
    status: Option<Status>, total: Option<int>, baseSha: Option<string>, mergeBaseSha: Option<string>,
    commits: Option<seq<string>>)

  type Compare = nat -> ComparePage

  predicate GoodHeader(p: ComparePage) {
    p.status.Some? && p.total.Some? && 0 <= p.total.value <= MAX_COMMITS
  }

  predicate GoodFirst(p: ComparePage, base: string) {
    p.baseSha == Some(base) && (p.status == Some(Ahead) ==> p.mergeBaseSha == Some(base))
  }

  /** Page m is usable and agrees with page 1. */
  predicate GoodPage(pages: Compare, base: string, m: nat) {
    var p := pages(m);
    && GoodHeader(p)
    && (if m == 1 then GoodFirst(p, base) else p.status == pages(1).status && p.total == pages(1).total)
    && p.commits.Some? && forall sha | sha in p.commits.value :: IsGitSha(sha)
  }

  function ShasOn(pages: Compare, m: nat): seq<string> {
    match pages(m).commits
    case Some(shas) => shas
    case None => []
  }

  /** The total announced by page 1. */
  function Total(pages: Compare): int {
    match pages(1).total
    case Some(n) => n
    case None => 0
  }

  /** The commits of pages 1 to m, in order. */
  function Collected(pages: Compare, m: nat): seq<string> {
    if m == 0 then [] else Collected(pages, m - 1) + ShasOn(pages, m)
  }

  /** Pages before n are usable, not empty, and short of the announced total. */
  ghost predicate Unfinished(pages: Compare, base: string, n: nat) {
    forall m: nat | 1 <= m < n :: GoodPage(pages, base, m) && ShasOn(pages, m) != [] && |Collected(pages, m)| < Total(pages)
  }

  /** The commits lead from base to head as the announced status says. */
  predicate Leads(status: Option<Status>, base: string, head: string, commits: seq<string>) {
    if status == Some(Identical) then base == head && commits == []
    else commits != [] && commits[|commits| - 1] == head
  }

  /** Pages 1 to n are exactly one complete, consistent frontier from base to head. */
  ghost predicate Frontier(pages: Compare, base: string, head: string, n: nat) {
    && n >= 1
    && Unfinished(pages, base, n) && GoodPage(pages, base, n)
    && |Collected(pages, n)| == Total(pages)
    && Unique(Collected(pages, n))
    && Leads(pages(1).status, base, head, Collected(pages, n))
  }

  lemma {:induction false} CollectedGrows(pages: Compare, m: nat, n: nat)
    requires m <= n
    ensures |Collected(pages, m)| <= |Collected(pages, n)|
    decreases n - m
  {
    if m < n { CollectedGrows(pages, m, n - 1); }
  }

  /** A frontier cannot end before the page in hand, so a page that does not fit rules every frontier out. */
  lemma NoEarlierEnd(pages: Compare, base: string, head: string, page: nat, n: nat)
    requires page >= 1 && Unfinished(pages, base, page) && Frontier(pages, base, head, n)
    ensures n >= page && GoodPage(pages, base, page)
    ensures |Collected(pages, page)| >= Total(pages) ==> n == page
    ensures |Collected(pages, page)| < Total(pages) ==> ShasOn(pages, page) != []
  {
    if page < n && |Collected(pages, page)| >= Total(pages) { CollectedGrows(pages, page, n); }
  }

  /**
    The range is accepted exactly when some number of pages forms a frontier, and then it is
    that frontier; at most one request more than commits is ever made.
  */
  method LoadCommitRange(pages: Compare, base: string, head: string)
    returns (r: Result<(Status, seq<string>), PageError>, requests: nat)
    ensures r.Ok? <==> exists n :: Frontier(pages, base, head, n)
    ensures r.Ok? ==> Frontier(pages, base, head, requests)
    ensures r.Ok? ==> Some(r.value.0) == pages(1).status && r.value.1 == Collected(pages, requests)
    ensures requests <= MAX_COMMITS + 1
  {
    var commits: seq<string> := [];
    var page := 1;
    while true
      invariant page >= 1 && Unfinished(pages, base, page)
      invariant commits == Collected(pages, page - 1) && page - 1 <= |commits| <= MAX_COMMITS
      invariant page > 1 ==> |commits| < Total(pages)
      decreases MAX_COMMITS - |commits|
    {
      forall n | Frontier(pages, base, head, n)
        ensures GoodPage(pages, base, page)
        ensures |Collected(pages, page)| >= Total(pages) ==> n == page
        ensures |Collected(pages, page)| < Total(pages) ==> ShasOn(pages, page) != []
      {
        NoEarlierEnd(pages, base, head, page, n);
      }
      var payload := pages(page);
      requests := page;
      if payload.status.None? { return Err(BadStatus), requests; }
      if payload.total.None? || payload.total.value < 0 { return Err(BadTotal), requests; }
      if payload.total.value > MAX_COMMITS { return Err(TooManyCommits), requests; }
      if page == 1 {
        if payload.baseSha != Some(base) { return Err(BaseDisagrees), requests; }
        if payload.status == Some(Ahead) && payload.mergeBaseSha != Some(base) { return Err(NotAhead), requests; }
      } else if payload.total != pages(1).total || payload.status != pages(1).status {
        return Err(PaginationChanged), requests;
      }
      if payload.commits.None? { return Err(OmittedCommits), requests; }
      var pageShas := payload.commits.value;
      if exists sha | sha in pageShas :: !IsGitSha(sha) { return Err(BadSha), requests; }
      commits := commits + pageShas;
      if |commits| >= payload.total.value { break; }
      if pageShas == [] { return Err(EndedEarly), requests; }
      page := page + 1;
    }
    if |commits| != Total(pages) { return Err(WrongCount), requests; }
    if !Unique(commits) { return Err(DuplicateCommits), requests; }
    if !Leads(pages(1).status, base, head, commits) { return Err(BadFrontier), requests; }
    assert Frontier(pages, base, head, page);
    r := Ok((pages(1).status.value, commits));
  }

  /** The commits of a range are those of its pages, each page whole, in page order and in the order of the page. */
  lemma {:induction false} CollectedAt(pages: Compare, m: nat, n: nat, k: nat)
    requires 1 <= m <= n && pages(m).commits.Some? && k < |pages(m).commits.value|
    ensures |Collected(pages, m)| == |Collected(pages, m - 1)| + |pages(m).commits.value|
    ensures |Collected(pages, m - 1)| + k < |Collected(pages, n)|
    ensures Collected(pages, n)[|Collected(pages, m - 1)| + k] == pages(m).commits.value[k]
    decreases n
  {
    if m < n { CollectedAt(pages, m, n - 1, k); }
  }

  /** Nothing else is in the range. */
  lemma {:induction false} CollectedOnPage(pages: Compare, n: nat, i: nat) returns (m: nat, k: nat)
    requires i < |Collected(pages, n)|
    ensures 1 <= m <= n && pages(m).commits.Some? && k < |pages(m).commits.value|
    ensures i == |Collected(pages, m - 1)| + k
  {
    if i < |Collected(pages, n - 1)| {
      m, k := CollectedOnPage(pages, n - 1, i);
    } else {
      m, k := n, i - |Collected(pages, n - 1)|;
    }
  }

  // ----- the files of one commit -----

  datatype CommitFile = CommitFile(name: string, previousName: Option<string>)

  datatype CommitPage = CommitPage(sha: Option<string>, parents: Option<seq<string>>, files: Option<seq<CommitFile>>)

  type Commits = nat -> CommitPage

  predicate CommitPath(path: string) { SafePath(path) && '\0' !in path }

  predicate GoodFile(file: CommitFile) {
    CommitPath(file.name) && (file.previousName.Some? ==> CommitPath(file.previousName.value))
  }

  predicate GoodCommitPage(pages: Commits, sha: string, m: nat) {
    var p := pages(m);
    && p.sha == Some(sha) && p.parents.Some? && (forall s | s in p.parents.value :: IsGitSha(s))
    && p.parents == pages(1).parents
    && p.files.Some? && forall file | file in p.files.value :: GoodFile(file)
  }

  function FilesOn(pages: Commits, m: nat): seq<CommitFile> {
    match pages(m).files
    case Some(files) => files
    case None => []
  }

  function FileCount(pages: Commits, m: nat): nat {
    if m == 0 then 0 else FileCount(pages, m - 1) + |FilesOn(pages, m)|
  }

  function NamesOf(files: seq<CommitFile>): set<string> {
    if files == [] then {}
    else
      var last := files[|files| - 1];
      NamesOf(files[..|files| - 1]) + {last.name} + (if last.previousName.Some? then {last.previousName.value} else {})
  }

  /** Every new and every previous name on pages 1 to m. */
  function TouchedOn(pages: Commits, m: nat): set<string> {
    if m == 0 then {} else TouchedOn(pages, m - 1) + NamesOf(FilesOn(pages, m))
  }

  /** A file of the commit bears a path as its new or as its previous name. */
  predicate Bears(file: CommitFile, path: string) { file.name == path || file.previousName == Some(path) }

  /** Some file on pages 1 to n bears the path. */
  predicate NamedOn(pages: Commits, n: nat, path: string) {
    exists m: nat | 1 <= m <= n :: pages(m).files.Some? && exists file | file in pages(m).files.value :: Bears(file, path)
  }

  lemma {:induction false} NameListed(files: seq<CommitFile>, path: string)
    ensures path in NamesOf(files) <==> exists file | file in files :: Bears(file, path)
  {
    if files != [] {
      var init, last := files[..|files| - 1], files[|files| - 1];
      NameListed(init, path);
      if file :| file in files && Bears(file, path) {
        var i :| 0 <= i < |files| && files[i] == file;
        assert i == |init| || init[i] == file;
      }
      assert last in files && forall file | file in init :: file in files;
    }
  }

  lemma {:induction false} TouchedListed(pages: Commits, n: nat, path: string)
    ensures path in TouchedOn(pages, n) <==> NamedOn(pages, n, path)
  {
    if n > 0 {
      TouchedListed(pages, n - 1, path);
      NameListed(FilesOn(pages, n), path);
      if NamedOn(pages, n, path) && !NamedOn(pages, n - 1, path) {
        var m: nat :| 1 <= m <= n && pages(m).files.Some? && exists file | file in pages(m).files.value :: Bears(file, path);
        assert m == n;
      }
    }
  }

  /** Pages before n are usable and full, and stay below the file limit. */
  ghost predicate MoreToRead(pages: Commits, sha: string, n: nat) {
    forall m: nat | 1 <= m < n ::
      GoodCommitPage(pages, sha, m) && |FilesOn(pages, m)| >= FILES_PAGE && FileCount(pages, m) < MAX_FILES
  }

  /** Pages 1 to n are one complete projection of the commit. */
  ghost predicate Projection(pages: Commits, sha: string, n: nat) {
    && n >= 1
    && MoreToRead(pages, sha, n) && GoodCommitPage(pages, sha, n)
    && |FilesOn(pages, n)| < FILES_PAGE
  }

  lemma NoEarlierPage(pages: Commits, sha: string, page: nat, n: nat)
    requires page >= 1 && MoreToRead(pages, sha, page) && Projection(pages, sha, n)
    ensures n >= page && GoodCommitPage(pages, sha, page)
    ensures |FilesOn(pages, page)| < FILES_PAGE ==> n == page
    ensures |FilesOn(pages, page)| >= FILES_PAGE ==> FileCount(pages, page) < MAX_FILES
  {}

  /**
    Nothing is lost over pages, and a commit with a repeated parent is refused: the snapshot lists, in order,
    exactly the paths that some file on some page of the projection bears as its new or its previous name.
  */
  method CommitSnapshot(pages: Commits, sha: string, ordinal: nat) returns (r: Result<Snapshot, PageError>)
    ensures r.Ok? <==> (exists n :: Projection(pages, sha, n)) && pages(1).parents.Some? && Unique(pages(1).parents.value)
    ensures r.Ok? ==> pages(1).parents.Some?
    ensures r.Ok? ==> r.value.sha == sha && r.value.ordinal == ordinal && r.value.parents == pages(1).parents.value
    ensures r.Ok? ==> Increasing(TextKey, r.value.touched)
    ensures r.Ok? ==> forall n, path | Projection(pages, sha, n) :: path in r.value.touched <==> NamedOn(pages, n, path)
  {
    var touched: set<string> := {};
    var page := 1;
    var rawFileCount := 0;
    while true
      invariant page >= 1 && MoreToRead(pages, sha, page)
      invariant rawFileCount == FileCount(pages, page - 1) && touched == TouchedOn(pages, page - 1)
      invariant rawFileCount < MAX_FILES
      decreases MAX_FILES - rawFileCount
    {
      forall n | Projection(pages, sha, n)
        ensures GoodCommitPage(pages, sha, page)
        ensures |FilesOn(pages, page)| < FILES_PAGE ==> n == page
        ensures |FilesOn(pages, page)| >= FILES_PAGE ==> FileCount(pages, page) < MAX_FILES
      {
        NoEarlierPage(pages, sha, page, n);
      }
      var payload := pages(page);
      if payload.sha != Some(sha) { return Err(BadSha); }
      if payload.parents.None? { return Err(OmittedParents); }
      if exists s | s in payload.parents.value :: !IsGitSha(s) { return Err(BadSha); }
      if payload.parents != pages(1).parents { return Err(PaginationChanged); }
      if payload.files.None? { return Err(OmittedFiles); }
      var files := payload.files.value;
      rawFileCount := rawFileCount + |files|;
      var names := AddNames(files);
      if names.Err? { return Err(names.error); }
      touched := touched + names.value;
      if |files| < FILES_PAGE { break; }
      if rawFileCount >= MAX_FILES { return Err(FileLimit); }
      page := page + 1;
    }
    assert Projection(pages, sha, page);
    if !Unique(pages(1).parents.value) { return Err(RepeatedParents); }
    r := Ok(Snapshot(sha, ordinal, pages(1).parents.value, SortedPaths(touched)));
    forall n, path | Projection(pages, sha, n) ensures path in r.value.touched <==> NamedOn(pages, n, path) {
      NoEarlierPage(pages, sha, page, n);
      TouchedListed(pages, n, path);
    }
  }

  /** The inner loop: the names of one page, unless one of its paths is unsafe. */
  method AddNames(files: seq<CommitFile>) returns (r: Result<set<string>, PageError>)
    ensures r.Ok? <==> forall file | file in files :: GoodFile(file)
    ensures r.Ok? ==> r.value == NamesOf(files)
  {
    var names: set<string> := {};
    for i := 0 to |files|
      invariant names == NamesOf(files[..i])
      invariant forall k | 0 <= k < i :: GoodFile(files[k])
    {
      var file := files[i];
      assert files[..i + 1][..i] == files[..i];
      assert !GoodFile(file) ==> !forall f | f in files :: GoodFile(f) by { assert file in files; }
      if !CommitPath(file.name) { return Err(BadPath); }
      names := names + {file.name};
      if file.previousName.Some? {
        if !CommitPath(file.previousName.value) { return Err(BadPath); }
        names := names + {file.previousName.value};
      }
    }
    assert files[..|files|] == files;
    r := Ok(names);
  }
}
