/**
 * The push handler of the documentation bot (`bot-app.js`): it derives the
 * pushed branch, ignores its own branch, collects the files added or modified
 * by the pushed commits, asks for an edit of each file in a known language,
 * keeps the edits that change something and opens one pull request with them.
 * Fetching contents and asking for edits are network calls: their results are
 * given as functions of the file path.
 */
module DocBot {
  import opened Common

  const BotBranch := "wl-commentbot"
  const HeadsPrefix := "refs/heads/"

  // ---------------------------------------------------------------------------
  // The branch.

  /** `pat` occurs in `s` at position `i`. */
  predicate OccursAt(s: string, pat: string, i: nat) {
    i + |pat| <= |s| && s[i..i + |pat|] == pat
  }

  /** The first position at or after `from` where `pat` occurs in `s`. */
  function FindFrom(s: string, pat: string, from: nat): (r: Option<nat>)
    requires from <= |s|
    ensures r.Some? ==> from <= r.value && OccursAt(s, pat, r.value)
    ensures forall i: nat :: from <= i && (r.None? || i < r.value) ==> !OccursAt(s, pat, i)
    decreases |s| - from
  {
    if from + |pat| > |s| then None
    else if s[from..from + |pat|] == pat then Some(from)
    else FindFrom(s, pat, from + 1)
  }

  /** `payload.ref.replace("refs/heads/", "")`: only the first occurrence is removed. */
  function BranchOf(ref: string): (b: string)
    ensures (forall i: nat :: !OccursAt(ref, HeadsPrefix, i)) ==> b == ref
    ensures forall i: nat :: OccursAt(ref, HeadsPrefix, i) && (forall j: nat :: j < i ==> !OccursAt(ref, HeadsPrefix, j))
                             ==> b == ref[..i] + ref[i + |HeadsPrefix|..]
  {
    match FindFrom(ref, HeadsPrefix, 0)
    case None => ref
    case Some(i) => ref[..i] + ref[i + |HeadsPrefix|..]
  }

  /** A branch ref gives the branch name; a ref without the prefix is kept whole. */
  lemma BranchOfRef(name: string, other: string)
    ensures BranchOf(HeadsPrefix + name) == name
    ensures (forall i: nat :: !OccursAt(other, HeadsPrefix, i)) ==> BranchOf(other) == other
  {
    var ref := HeadsPrefix + name;
    assert OccursAt(ref, HeadsPrefix, 0);
    assert ref[|HeadsPrefix|..] == name;
  }

  /** Only the first occurrence goes: a tag named after a branch ref keeps the rest. */
  lemma BranchOfRemovesFirstOnly()
    ensures BranchOf("refs/heads/refs/heads/x") == "refs/heads/x"
  {
    BranchOfRef("refs/heads/x", "");
  }

  // ---------------------------------------------------------------------------
  // The changed files, as the `reduce` over the commits collects them.

  datatype Commit = Commit(added: seq<string>, modified: seq<string>, removed: seq<string>)

  predicate Distinct(s: seq<string>) {
    forall i, j :: 0 <= i < j < |s| ==> s[i] != s[j]
  }

  /**
   * `acc[file] = true`, the keys of `acc` kept in insertion order; the order
   * in which `Object.keys` lists integer-like names is not modelled.
   */
  function AddKey(acc: seq<string>, file: string): (r: seq<string>)
    ensures Distinct(acc) ==> Distinct(r)
    ensures forall f :: f in r <==> f in acc || f == file
  {
    if file in acc then acc else acc + [file]
  }

  /** `files.forEach((file) => acc[file] = true)`. */
  function AddAll(acc: seq<string>, files: seq<string>): (r: seq<string>)
    ensures Distinct(acc) ==> Distinct(r)
    ensures forall f :: f in r <==> f in acc || f in files
  {
    if files == [] then acc
    else
      var init := files[..|files| - 1];
      assert forall f :: f in files <==> f in init || f == files[|files| - 1];
      AddKey(AddAll(acc, init), files[|files| - 1])
  }

  /**
   * `Object.keys(payload.commits.reduce(...))`: each path once, and exactly the
   * paths some commit added or modified; a path only ever removed is not there.
   */
  function FileList(commits: seq<Commit>): (files: seq<string>)
    ensures Distinct(files)
    ensures forall f :: f in files <==>
              exists i :: 0 <= i < |commits| && (f in commits[i].added || f in commits[i].modified)
  {
    if commits == [] then []
    else
      var init := commits[..|commits| - 1];
      var last := commits[|commits| - 1];
      assert forall i :: 0 <= i < |init| ==> init[i] == commits[i];
      AddAll(AddAll(FileList(init), last.added), last.modified)
  }

  /** The reduce as the loops it runs: the accumulator takes each added, then each modified path of each commit. */
  method CollectFiles(commits: seq<Commit>) returns (files: seq<string>)
    ensures files == FileList(commits)
  {
    var acc: seq<string> := [];
    for i := 0 to |commits|
      invariant acc == FileList(commits[..i])
    {
      var commit := commits[i];
      ghost var before := acc;
      for j := 0 to |commit.added|
        invariant acc == AddAll(before, commit.added[..j])
      {
        assert commit.added[..j + 1][..j] == commit.added[..j];
        acc := AddKey(acc, commit.added[j]);
      }
      assert commit.added[..|commit.added|] == commit.added;
      ghost var afterAdded := acc;
      for j := 0 to |commit.modified|
        invariant acc == AddAll(afterAdded, commit.modified[..j])
      {
        assert commit.modified[..j + 1][..j] == commit.modified[..j];
        acc := AddKey(acc, commit.modified[j]);
      }
      assert commit.modified[..|commit.modified|] == commit.modified;
      assert commits[..i + 1][..i] == commits[..i];
    }
    assert commits[..|commits|] == commits;
    files := acc;
  }

  // ---------------------------------------------------------------------------
  // Languages.

  datatype CommentStyle = LineComment | BlockComment | HashComment
  datatype Language = Language(name: string, style: CommentStyle)

  const KnownExtensions: set<string> := {".js", ".ts", ".css", ".scss", ".less", ".py", ".php"}

  /** `s` ends with `e`. */
  predicate EndsWith(s: string, e: string) {
    |e| <= |s| && s[|s| - |e|..] == e
  }

  /** The `extensions` table, keyed by the extension with its dot. */
  function Extensions(ext: string): (r: Option<Language>)
    ensures r.Some? <==> ext in {".js", ".ts", ".css", ".scss", ".less", ".py", ".php"}
    ensures r.Some? ==> (r.value.style == LineComment <==> ext in {".js", ".ts", ".php"})
    ensures r.Some? ==> (r.value.style == BlockComment <==> ext in {".css", ".scss", ".less"})
    ensures r.Some? ==> (r.value.style == HashComment <==> ext == ".py")
  {
    if ext == ".js" then Some(Language("JavaScript", LineComment))
    else if ext == ".ts" then Some(Language("TypeScript", LineComment))
    else if ext == ".css" then Some(Language("CSS", BlockComment))
    else if ext == ".scss" then Some(Language("SCSS", BlockComment))
    else if ext == ".less" then Some(Language("LESS", BlockComment))
    else if ext == ".py" then Some(Language("Python", HashComment))
    else if ext == ".php" then Some(Language("PHP", LineComment))
    else None
  }

  /** The comment wrapper of a table entry: `//t`, `/*t*/` or `#t`. */
  function Comment(style: CommentStyle, t: string): (c: string)
    ensures |c| == |t| + (match style case LineComment => 2 case BlockComment => 4 case HashComment => 1)
    ensures style == LineComment ==> c[..2] == "//" && c[2..] == t
    ensures style == BlockComment ==> c[..2] == "/*" && c[2..|c| - 2] == t && c[|c| - 2..] == "*/"
    ensures style == HashComment ==> c[..1] == "#" && c[1..] == t
  {
    match style
    case LineComment => "//" + t
    case BlockComment => "/*" + t + "*/"
    case HashComment => "#" + t
  }

  /** `toLowerCase` on ASCII letters; other characters are kept. */
  function Lower(s: string): (r: string)
    ensures |r| == |s|
    ensures forall i :: 0 <= i < |s| ==> r[i] == if 'A' <= s[i] <= 'Z' then (s[i] as int + 32) as char else s[i]
  {
    if s == [] then []
    else [if 'A' <= s[0] <= 'Z' then (s[0] as int + 32) as char else s[0]] + Lower(s[1..])
  }

  predicate IsExtChar(c: char) {
    'a' <= c <= 'z' || '0' <= c <= '9'
  }

  /** The number of characters at the end of `s` that `[a-z0-9]` matches. */
  function TrailingRun(s: string): (n: nat)
    ensures n <= |s|
    ensures forall i :: |s| - n <= i < |s| ==> IsExtChar(s[i])
    ensures n < |s| ==> !IsExtChar(s[|s| - n - 1])
  {
    if s == [] || !IsExtChar(s[|s| - 1]) then 0 else TrailingRun(s[..|s| - 1]) + 1
  }

  /** `s.match(/\.([a-z0-9]+)$/)[0]`: the final dot and the letters and digits after it. */
  function ExtensionOf(s: string): (r: Option<string>)
    ensures r.Some? ==> 2 <= |r.value| <= |s| && s[|s| - |r.value|..] == r.value && r.value[0] == '.'
                        && forall i :: 1 <= i < |r.value| ==> IsExtChar(r.value[i])
  {
    var n := TrailingRun(s);
    if 0 < n < |s| && s[|s| - n - 1] == '.' then Some(s[|s| - n - 1..]) else None
  }

  /** Any path ending in a dot and one or more of `[a-z0-9]` has that ending as its extension. */
  lemma ExtensionOfSuffix(stem: string, e: string)
    requires |e| >= 1 && forall i :: 0 <= i < |e| ==> IsExtChar(e[i])
    ensures ExtensionOf(stem + "." + e) == Some("." + e)
  {
    var s := stem + "." + e;
    var n := TrailingRun(s);
    assert s[|s| - |e| - 1] == '.';
    assert forall i :: |s| - |e| <= i < |s| ==> s[i] == e[i - (|s| - |e|)];
    assert n == |e|;
    assert s[|s| - n - 1..] == "." + e;
  }

  /** The language of a file: `extensions[file.toLowerCase().match(...)[0]]`, None for `null`. */
  function LanguageOf(file: string): (r: Option<Language>)
    ensures r.Some? ==> exists e :: e in KnownExtensions && EndsWith(Lower(file), e)
  {
    match ExtensionOf(Lower(file))
    case None => None
    case Some(ext) =>
      assert EndsWith(Lower(file), ext);
      Extensions(ext)
  }

  /** Upper-case extensions are found after lower-casing. */
  /**
   * Conversely, a path ending in a known extension, written in any case, has
   * that extension's language.
   */
  lemma LanguageOfKnownExtension(stem: string, e: string)
    requires Lower(e) in KnownExtensions
    ensures LanguageOf(stem + e) == Extensions(Lower(e))
    ensures LanguageOf(stem + e).Some?
  {
    LowerConcat(stem, e);
    ExtensionOfKnown(Lower(stem), Lower(e));
  }

  /** A known extension at the end of a lower-cased path is found as its extension. */
  lemma ExtensionOfKnown(prefix: string, e: string)
    requires e in KnownExtensions
    ensures ExtensionOf(prefix + e) == Some(e)
    ensures Extensions(e).Some?
  {
    KnownExtensionShape(e);
    var tail := e[1..];
    assert prefix + "." + tail == prefix + e;
    ExtensionOfSuffix(prefix, tail);
  }

  /** Lower-casing works character by character. */
  lemma LowerConcat(a: string, b: string)
    ensures Lower(a + b) == Lower(a) + Lower(b)
  {
    var l, r := Lower(a + b), Lower(a) + Lower(b);
    assert |l| == |r|;
    forall i | 0 <= i < |l| ensures l[i] == r[i] {
      if i < |a| {
        assert (a + b)[i] == a[i];
      } else {
        assert (a + b)[i] == b[i - |a|];
      }
    }
  }

  /** Every known extension is a dot followed by one or more of `[a-z0-9]`. */
  lemma KnownExtensionShape(e: string)
    requires e in KnownExtensions
    ensures |e| >= 2 && e[0] == '.' && e == "." + e[1..]
    ensures forall i :: 1 <= i < |e| ==> IsExtChar(e[i])
  {
  }

  lemma LanguageOfUpperCaseScript()
    ensures LanguageOf("src/App.JS") == Some(Language("JavaScript", LineComment))
  {
    var stem, e := "src/App", ".JS";
    assert stem + e == "src/App.JS";
    assert Lower(e) == ".js";
    LanguageOfKnownExtension(stem, e);
  }

  /** A path whose extension, lower-cased, is outside the table has no language. */
  lemma LanguageOfUnknownExtension(stem: string, e: string)
    requires |e| >= 1 && forall i :: 0 <= i < |e| ==> IsExtChar(e[i])
    requires "." + e !in KnownExtensions
    ensures LanguageOf(stem + "." + e) == None
  {
    assert Lower(stem + "." + e) == Lower(stem) + "." + e by {
      LowerConcat(stem + ".", e);
      LowerConcat(stem, ".");
      assert Lower(".") == ".";
      assert Lower(e) == e;
    }
    ExtensionOfSuffix(Lower(stem), e);
  }

  lemma LanguageOfMarkdown()
    ensures LanguageOf("README.md") == None
  {
    var e := "md";
    assert "README" + "." + e == "README.md";
    assert IsExtChar(e[0]) && IsExtChar(e[1]);
    assert "." + e == ".md";
    LanguageOfUnknownExtension("README", e);
  }

  // ---------------------------------------------------------------------------
  // One file, then the whole push.

  /**
   * What `openai.createEdit` gives: the edited text (`choices[0].text`), an
   * error carrying an HTTP `response` (logged by the catch block), or an error
   * without one, on which the catch block itself throws at `e.response.status`.
   */
  datatype EditResult = Edited(text: string) | FailedWithResponse | FailedWithoutResponse

  /** The per-file callback: None when its promise rejects, else the object it resolves to. */
  function ProcessFile(file: string, content: Option<string>, edit: EditResult): (r: Option<map<string, string>>)
    ensures r.Some? ==> r.value.Keys <= {file}
    ensures r.Some? && file in r.value ==> edit.Edited? && r.value[file] == edit.text && Some(edit.text) != content
  {
    if content.None? then None           // getContent rejects
    else if LanguageOf(file).None? then None   // `const [name, comment] = null`
    else match edit
      case Edited(text) => if text == content.value then Some(map[]) else Some(map[file := text])
      case FailedWithResponse => Some(map[])
      case FailedWithoutResponse => None
  }

  /** A file's edit is kept: it is in a known language, fetched, and its edit returns a different text. */
  predicate Keeps(file: string, content: Option<string>, edit: EditResult) {
    content.Some? && LanguageOf(file).Some? && edit.Edited? && edit.text != content.value
  }

  /** A file's promise rejects. */
  predicate Rejects(file: string, content: Option<string>, edit: EditResult) {
    content.None? || LanguageOf(file).None? || edit.FailedWithoutResponse?
  }

  /**
   * `Object.assign({}, ...await Promise.all(files.map(...)))`: None when any
   * file's promise rejects; otherwise the merge of the per-file objects, later
   * ones winning.
   */
  function Changed(files: seq<string>, contents: string -> Option<string>, edits: string -> EditResult)
    : (r: Option<map<string, string>>)
    ensures r.Some? ==> forall f :: f in r.value ==> f in files
  {
    if files == [] then Some(map[])
    else
      var file := files[|files| - 1];
      match Changed(files[..|files| - 1], contents, edits)
      case None => None
      case Some(merged) =>
        match ProcessFile(file, contents(file), edits(file))
        case None => None
        case Some(m) => Some(merged + m)
  }

  /**
   * The merge rejects exactly when some file rejects; otherwise it holds
   * exactly the files whose edit is kept, each with its edited text.
   */
  lemma {:induction false} ChangedContents(files: seq<string>, contents: string -> Option<string>, edits: string -> EditResult)
    ensures var r := Changed(files, contents, edits);
            && (r.None? <==> exists f :: f in files && Rejects(f, contents(f), edits(f)))
            && (r.Some? ==> forall f :: f in r.value <==> f in files && Keeps(f, contents(f), edits(f)))
            && (r.Some? ==> forall f :: f in r.value ==> r.value[f] == edits(f).text)
  {
    if files != [] {
      var init := files[..|files| - 1];
      var file := files[|files| - 1];
      assert files == init + [file];
      ChangedContents(init, contents, edits);
      ChangedStep(init, file, contents, edits);
    }
  }

  /** One more file: the merge so far, and that file's own object on top. */
  lemma ChangedStep(init: seq<string>, file: string, contents: string -> Option<string>, edits: string -> EditResult)
    ensures var files := init + [file];
            var r := Changed(files, contents, edits);
            && (forall f :: f in files <==> f in init || f == file)
            && (r.None? <==> Changed(init, contents, edits).None? || ProcessFile(file, contents(file), edits(file)).None?)
            && (r.Some? ==> r.value == Changed(init, contents, edits).value + ProcessFile(file, contents(file), edits(file)).value)
  {
    var files := init + [file];
    assert files[..|files| - 1] == init;
  }

  datatype PushOutcome =
    | Ignored                     // a push to the bot's own branch
    | Rejected                    // the handler's promise rejects; no pull request
    | NoPullRequest               // nothing changed
    | PullRequest(head: string, base: string, files: map<string, string>)

  /** The `push` handler. */
  function OnPush(ref: string, commits: seq<Commit>, contents: string -> Option<string>, edits: string -> EditResult)
    : (r: PushOutcome)
    ensures r == Ignored <==> BranchOf(ref) == BotBranch
    ensures r.PullRequest? ==> && r.head == BotBranch && r.base == BranchOf(ref) && r.base != BotBranch
                               && |r.files| > 0 && forall f :: f in r.files ==> f in FileList(commits)
  {
    var branch := BranchOf(ref);
    if branch == BotBranch then Ignored
    else match Changed(FileList(commits), contents, edits)
      case None => Rejected
      case Some(changed) =>
        if |changed| == 0 then NoPullRequest else PullRequest(BotBranch, branch, changed)
  }

  /** A push to the bot's branch does nothing else. */
  lemma BotBranchIgnored(ref: string, commits: seq<Commit>, contents: string -> Option<string>, edits: string -> EditResult)
    requires BranchOf(ref) == BotBranch
    ensures OnPush(ref, commits, contents, edits) == Ignored
  {
  }

  /**
   * A pull request is opened exactly when the branch is not the bot's, no file
   * rejects and some file's edit is kept.
   */
  lemma PullRequestWhen(ref: string, commits: seq<Commit>, contents: string -> Option<string>, edits: string -> EditResult)
    ensures var files := FileList(commits);
            OnPush(ref, commits, contents, edits).PullRequest? <==>
              && BranchOf(ref) != BotBranch
              && (forall f :: f in files ==> !Rejects(f, contents(f), edits(f)))
              && (exists f :: f in files && Keeps(f, contents(f), edits(f)))
  {
    var files := FileList(commits);
    ChangedContents(files, contents, edits);
    var changed := Changed(files, contents, edits);
    if changed.Some? && (exists f :: f in files && Keeps(f, contents(f), edits(f))) {
      var f :| f in files && Keeps(f, contents(f), edits(f));
      assert f in changed.value;
    }
  }

  /**
   * The pull request goes from the bot's branch into the pushed one and
   * carries exactly the kept edits of the changed files.
   */
  lemma PullRequestContents(ref: string, commits: seq<Commit>, contents: string -> Option<string>, edits: string -> EditResult)
    requires OnPush(ref, commits, contents, edits).PullRequest?
    ensures var pr := OnPush(ref, commits, contents, edits);
            && pr.head == BotBranch && pr.base == BranchOf(ref)
            && (forall f :: f in pr.files <==> f in FileList(commits) && Keeps(f, contents(f), edits(f)))
            && (forall f :: f in pr.files ==> pr.files[f] == edits(f).text)
  {
    ChangedContents(FileList(commits), contents, edits);
  }

  /**
   * A changed file whose extension is not in the table is not skipped: the
   * whole push is rejected and no pull request is made.
   */
  lemma UnknownLanguageRejects(ref: string, commits: seq<Commit>, contents: string -> Option<string>,
                               edits: string -> EditResult, c: nat, file: string)
    requires BranchOf(ref) != BotBranch
    requires c < |commits| && (file in commits[c].added || file in commits[c].modified) && LanguageOf(file).None?
    ensures OnPush(ref, commits, contents, edits) == Rejected
  {
    var files := FileList(commits);
    assert file in files;
    assert Rejects(file, contents(file), edits(file));
    ChangedContents(files, contents, edits);
  }

  /** When every edit gives back the text it was given, or fails with a response, no pull request is made. */
  lemma NothingChangedNoPullRequest(ref: string, commits: seq<Commit>, contents: string -> Option<string>,
                                    edits: string -> EditResult)
    requires BranchOf(ref) != BotBranch
    requires forall f :: f in FileList(commits) ==> !Rejects(f, contents(f), edits(f)) && !Keeps(f, contents(f), edits(f))
    ensures OnPush(ref, commits, contents, edits) == NoPullRequest
  {
    var files := FileList(commits);
    ChangedContents(files, contents, edits);
    var changed := Changed(files, contents, edits);
    assert changed.Some?;
    assert changed.value.Keys == {};
  }
}
