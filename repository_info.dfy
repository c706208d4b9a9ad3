/** The string and list decisions `retrieve_code_repositories` takes for one
    git checkout once git itself is abstracted away: cleaning the remote
    URL, naming the repository, and choosing the branch name of a detached
    head from the release tags on its commit. */
module RepositoryInfo {
  import opened Wrappers
  import opened PyValue
  import PyStr

  // ---------------------------------------------------------------- regular expressions

  /** The first index at or after `from` holding a newline, or |s|: where a
      regular expression's `.` stops. */
  function LineEnd(s: string, from: nat): (e: nat)
    requires from <= |s|
    ensures from <= e <= |s|
    ensures forall k :: from <= k < e ==> s[k] != '\n'
    ensures e < |s| ==> s[e] == '\n'
    decreases |s| - from
  {
    if from == |s| || s[from] == '\n' then from else LineEnd(s, from + 1)
  }

  /** The last index in [lo, hi) holding `c`. */
  function LastIndex(s: string, c: char, lo: nat, hi: nat): (r: Option<nat>)
    requires lo <= hi <= |s|
    ensures r.None? ==> forall k :: lo <= k < hi ==> s[k] != c
    ensures r.Some? ==> lo <= r.value < hi && s[r.value] == c
    ensures r.Some? ==> forall k :: r.value < k < hi ==> s[k] != c
    decreases hi
  {
    if hi == lo then None
    else if s[hi - 1] == c then Some(hi - 1)
    else LastIndex(s, c, lo, hi - 1)
  }

  /** Where `://.*@` first matches at or after `from`: the `://` and the last
      `@` on its line. */
  function CredentialMatch(s: string, from: nat): (r: Option<(nat, nat)>)
    requires from <= |s|
    ensures r.Some? ==> from <= r.value.0 && r.value.0 + 3 <= r.value.1 < |s|
    ensures r.Some? ==> PyStr.OccursAt(s, "://", r.value.0) && s[r.value.1] == '@'
    ensures r.Some? ==> r.value.0 + 3 <= |s| && r.value.1 < LineEnd(s, r.value.0 + 3)
    ensures r.Some? ==> forall k :: r.value.1 < k < LineEnd(s, r.value.0 + 3) ==> s[k] != '@'
    decreases |s| - from
  {
    if from + 3 > |s| then None
    else if PyStr.OccursAt(s, "://", from) then
      match LastIndex(s, '@', from + 3, LineEnd(s, from + 3))
      case Some(at) => Some((from, at))
      case None => CredentialMatch(s, from + 1)
    else CredentialMatch(s, from + 1)
  }

  /** `re.sub(':\/\/.*@', '://', url)`: every `://…@`, scanning left to
      right, becomes `://`. */
  function StripCredentials(s: string): string
    decreases |s|
  {
    match CredentialMatch(s, 0)
    case None => s
    case Some((i, at)) => s[..i] + "://" + StripCredentials(s[at + 1..])
  }

  /** On a one-line URL the first `://` that an `@` follows keeps what comes
      before it, loses everything up to the last `@`, and keeps the rest;
      what is kept after `://` holds no `@`. */
  lemma OneLineCredentials(s: string)
    requires '\n' !in s
    ensures CredentialMatch(s, 0).None? ==> StripCredentials(s) == s
    ensures CredentialMatch(s, 0).Some? ==>
              var (i, at) := CredentialMatch(s, 0).value;
              StripCredentials(s) == s[..i] + "://" + s[at + 1..] && '@' !in s[at + 1..]
  {
    match CredentialMatch(s, 0)
    case None =>
    case Some((i, at)) =>
      var rest := s[at + 1..];
      assert LineEnd(s, i + 3) == |s|;
      forall k | 0 <= k < |rest| ensures rest[k] != '@' {
        assert rest[k] == s[at + 1 + k];
      }
      NoAtNoMatch(rest, 0);
  }

  /** Text without `@` offers `://.*@` no match. */
  lemma NoAtNoMatch(s: string, from: nat)
    requires from <= |s| && '@' !in s
    ensures CredentialMatch(s, from).None?
    decreases |s| - from
  {
    if from + 3 <= |s| {
      NoAtNoMatch(s, from + 1);
    }
  }

  // ---------------------------------------------------------------- URL and name

  /** `url.split('.git')[0].split('/')[-1]`. */
  function RepoName(url: string): string {
    PyStr.LastSegment(PyStr.Split(url, ".git")[0], "/")
  }

  /** `url[:-4]` when the URL ends with `.git`. */
  function TrimGitSuffix(url: string): (r: string)
    ensures PyStr.EndsWith(url, ".git") ==> r + ".git" == url
    ensures !PyStr.EndsWith(url, ".git") ==> r == url
  {
    if PyStr.EndsWith(url, ".git") then url[..|url| - 4] else url
  }

  predicate IsLetter(c: char) { 'a' <= c <= 'z' || 'A' <= c <= 'Z' }

  /** The characters of `[a-zA-Z0-9.-]`. */
  predicate IsHostChar(c: char) { IsLetter(c) || PyStr.IsDigit(c) || c == '.' || c == '-' }

  /** The end of the run of letters that starts at `from`. */
  function LettersEnd(s: string, from: nat): (e: nat)
    requires from <= |s|
    ensures from <= e <= |s|
    ensures forall k :: from <= k < e ==> IsLetter(s[k])
    ensures e < |s| ==> !IsLetter(s[e])
    decreases |s| - from
  {
    if from == |s| || !IsLetter(s[from]) then from else LettersEnd(s, from + 1)
  }

  /** The end of the run of host characters that starts at `from`. */
  function HostEnd(s: string, from: nat): (e: nat)
    requires from <= |s|
    ensures from <= e <= |s|
    ensures forall k :: from <= k < e ==> IsHostChar(s[k])
    ensures e < |s| ==> !IsHostChar(s[e])
    decreases |s| - from
  {
    if from == |s| || !IsHostChar(s[from]) then from else HostEnd(s, from + 1)
  }

  /** `re.match(r'^[a-zA-Z]+@[a-zA-Z0-9.-]+:', url)`: letters, `@`, host
      characters, `:`.  Neither class holds `@` or `:`, so the match, if any,
      is the longest run of each. */
  predicate IsSshForm(url: string) {
    var user := LettersEnd(url, 0);
    0 < user < |url| && url[user] == '@'
    && var host := HostEnd(url, user + 1);
       user + 1 < host < |url| && url[host] == ':'
  }

  /** `re.sub(r'^.*@', 'https://', url)` on the URL with every `:` turned
      into `/`: the first line up to its last `@` becomes `https://`. */
  function SshToHttps(url: string): string {
    var slashed := PyStr.Replace(url, ":", "/");
    match LastIndex(slashed, '@', 0, LineEnd(slashed, 0))
    case Some(at) => "https://" + slashed[at + 1..]
    case None => slashed
  }

  /** The URL stored for a repository with a remote: credentials stripped,
      `.git` trimmed, an SSH remote rewritten as https. */
  function CleanUrl(rawUrl: string): string {
    var url := TrimGitSuffix(StripCredentials(rawUrl));
    if IsSshForm(url) then SshToHttps(url) else url
  }

  /** Every `c` replaced by `d`, position by position. */
  function MapChar(s: string, c: char, d: char): (r: string)
    ensures |r| == |s| && forall k :: 0 <= k < |s| ==> r[k] == if s[k] == c then d else s[k]
  {
    seq(|s|, k requires 0 <= k < |s| => if s[k] == c then d else s[k])
  }

  /** Where `str.find` of a single character stops. */
  lemma FindChar(s: string, c: char)
    ensures PyStr.Find(s, [c]).None? ==> forall k :: 0 <= k < |s| ==> s[k] != c
    ensures PyStr.Find(s, [c]).Some? ==>
              var i := PyStr.Find(s, [c]).value;
              i < |s| && s[i] == c && forall k :: 0 <= k < i ==> s[k] != c
  {
    forall k | 0 <= k < |s| && s[k] == c ensures PyStr.OccursAt(s, [c], k) {
      assert s[k..k + 1] == [s[k]];
    }
    if PyStr.Find(s, [c]).Some? {
      var i := PyStr.Find(s, [c]).value;
      assert PyStr.OccursAt(s, [c], i);
      assert s[i..i + 1] == [c];
    }
  }

  /** Replacing a single character is mapping it. */
  lemma {:induction false} ReplaceOneChar(s: string, c: char, d: char)
    ensures PyStr.Replace(s, [c], [d]) == MapChar(s, c, d)
    decreases |s|
  {
    FindChar(s, c);
    match PyStr.Find(s, [c])
    case None =>
    case Some(i) =>
      var rest := s[i + 1..];
      ReplaceOneChar(rest, c, d);
      var r := s[..i] + [d] + MapChar(rest, c, d);
      assert PyStr.Replace(s, [c], [d]) == r;
      assert forall k :: 0 <= k < |s| ==> r[k] == MapChar(s, c, d)[k] by {
        forall k | 0 <= k < |s| ensures r[k] == MapChar(s, c, d)[k] {
          if k > i { assert r[k] == MapChar(rest, c, d)[k - i - 1]; }
        }
      }
  }

  /** An SSH remote `user@host:path` on one line, with no other `@`, becomes
      `https://host/path` with every `:` of the path turned into `/`. */
  lemma SshRemote(url: string)
    requires IsSshForm(url) && '\n' !in url
    requires forall k :: 0 <= k < |url| && url[k] == '@' ==> k == LettersEnd(url, 0)
    ensures var user := LettersEnd(url, 0);
            SshToHttps(url) == "https://" + MapChar(url[user + 1..], ':', '/')
  {
    var user := LettersEnd(url, 0);
    assert user < |url| && url[user] == '@';
    ReplaceOneChar(url, ':', '/');
    assert ":" == [':'] && "/" == ['/'];
    var slashed := MapChar(url, ':', '/');
    assert PyStr.Replace(url, ":", "/") == slashed;
    assert forall k :: user < k < |url| ==> url[k] != '@';
    SlashedShape(url, user);
    SshToHttpsAt(url, slashed, user);
    MapCharSuffix(url, ':', '/', user + 1);
  }

  /** The URL with `:` turned into `/` is still one line whose last `@` is
      the user's. */
  lemma SlashedShape(url: string, user: nat)
    requires '\n' !in url && user < |url| && url[user] == '@'
    requires forall k :: user < k < |url| ==> url[k] != '@'
    ensures LineEnd(MapChar(url, ':', '/'), 0) == |url|
    ensures LastIndex(MapChar(url, ':', '/'), '@', 0, |url|) == Some(user)
  {
    var slashed := MapChar(url, ':', '/');
    NotInAvoids(url, '\n');
    MapCharAvoids(url, ':', '/', '\n', 0);
    OneLine(slashed);
    MapCharAvoids(url, ':', '/', '@', user + 1);
    LastAt(slashed, user);
  }

  lemma NotInAvoids(s: string, x: char)
    requires x !in s
    ensures forall k :: 0 <= k < |s| ==> s[k] != x
  {
    forall k | 0 <= k < |s| ensures s[k] != x {
      assert s[k] in s;
    }
  }

  /** Mapping `c` to `d` brings in no character other than `d`. */
  lemma MapCharAvoids(s: string, c: char, d: char, x: char, from: nat)
    requires x != d
    requires forall k :: from <= k < |s| ==> s[k] != x
    ensures forall k :: from <= k < |MapChar(s, c, d)| ==> MapChar(s, c, d)[k] != x
  {
  }

  lemma SshToHttpsAt(url: string, slashed: string, at: nat)
    requires PyStr.Replace(url, ":", "/") == slashed && at < |slashed|
    requires LineEnd(slashed, 0) == |slashed| && LastIndex(slashed, '@', 0, |slashed|) == Some(at)
    ensures SshToHttps(url) == "https://" + slashed[at + 1..]
  {
  }

  lemma OneLine(s: string)
    requires forall k :: 0 <= k < |s| ==> s[k] != '\n'
    ensures LineEnd(s, 0) == |s|
  {
  }

  lemma LastAt(s: string, at: nat)
    requires at < |s| && s[at] == '@'
    requires forall k :: at < k < |s| ==> s[k] != '@'
    ensures LastIndex(s, '@', 0, |s|) == Some(at)
  {
  }

  lemma MapCharSuffix(s: string, c: char, d: char, j: nat)
    requires j <= |s|
    ensures MapChar(s, c, d)[j..] == MapChar(s[j..], c, d)
  {
    var a := MapChar(s, c, d)[j..];
    var b := MapChar(s[j..], c, d);
    assert |a| == |b|;
    forall k | 0 <= k < |a| ensures a[k] == b[k] {
      assert a[k] == MapChar(s, c, d)[j + k];
      assert s[j..][k] == s[j + k];
    }
  }

  // ---------------------------------------------------------------- version tags

  /** Python's `<` on lists of ints: the first difference decides, and a
      proper prefix is smaller. */
  predicate LexLess(a: seq<int>, b: seq<int>)
    decreases |a|
  {
    if |a| == 0 then |b| > 0
    else if |b| == 0 then false
    else if a[0] != b[0] then a[0] < b[0]
    else LexLess(a[1..], b[1..])
  }

  lemma {:induction false} LexLessIrreflexive(a: seq<int>)
    ensures !LexLess(a, a)
    decreases |a|
  {
    if |a| > 0 { LexLessIrreflexive(a[1..]); }
  }

  lemma {:induction false} LexLessTransitive(a: seq<int>, b: seq<int>, c: seq<int>)
    requires LexLess(a, b) && LexLess(b, c)
    ensures LexLess(a, c)
    decreases |a|
  {
    if |a| > 0 && |b| > 0 && |c| > 0 && a[0] == b[0] && b[0] == c[0] {
      LexLessTransitive(a[1..], b[1..], c[1..]);
    }
  }

  lemma {:induction false} LexLessTotal(a: seq<int>, b: seq<int>)
    ensures a == b || LexLess(a, b) || LexLess(b, a)
    decreases |a|
  {
    if |a| > 0 && |b| > 0 && a[0] == b[0] {
      LexLessTotal(a[1..], b[1..]);
      if a[1..] == b[1..] {
        assert a == [a[0]] + a[1..] && b == [b[0]] + b[1..];
      }
    }
  }

  /** `[int(part) for part in version.strip('v').split('.')]`, None when a
      part is not an integer (`int()` raises ValueError). */
  function VersionKey(tag: string): Option<seq<int>> {
    ParseParts(PyStr.Split(PyStr.StripChars(tag, {'v'}), "."))
  }

  function ParseParts(parts: seq<string>): (r: Option<seq<int>>)
    ensures r.Some? ==> |r.value| == |parts|
    ensures r.Some? <==> forall k :: 0 <= k < |parts| ==> PyStr.ParseInt(parts[k]).Some?
    ensures r.Some? ==> forall k :: 0 <= k < |parts| ==> r.value[k] == PyStr.ParseInt(parts[k]).value
  {
    if |parts| == 0 then Some([])
    else
      var tail := parts[1..];
      assert forall k :: 1 <= k < |parts| ==> parts[k] == tail[k - 1];
      match PyStr.ParseInt(parts[0])
      case None => None
      case Some(v) =>
        match ParseParts(tail)
        case None => None
        case Some(rest) =>
          var r := [v] + rest;
          assert forall k :: 1 <= k < |parts| ==> r[k] == rest[k - 1];
          Some(r)
  }

  /** The release tags: names starting with `v`. */
  function ReleaseTags(tags: seq<string>): (r: seq<string>)
    ensures forall t :: t in r <==> t in tags && PyStr.StartsWith(t, "v")
  {
    if |tags| == 0 then []
    else (if PyStr.StartsWith(tags[0], "v") then [tags[0]] else []) + ReleaseTags(tags[1..])
  }

  /** Every tag has a version key. */
  predicate AllKeyed(tags: seq<string>) {
    forall k :: 0 <= k < |tags| ==> VersionKey(tags[k]).Some?
  }

  /** The version keys of tags that all have one. */
  function Keys(tags: seq<string>): (keys: seq<seq<int>>)
    requires AllKeyed(tags)
    ensures |keys| == |tags| && forall k :: 0 <= k < |tags| ==> keys[k] == VersionKey(tags[k]).value
  {
    seq(|tags|, k requires 0 <= k < |tags| => VersionKey(tags[k]).value)
  }

  /** The position `sorted(..., key=...)[-1]` takes among the first `n`
      keys: the stable sort puts the last of the largest keys at the end. */
  function LastLargest(keys: seq<seq<int>>, n: nat): (best: nat)
    requires 0 < n <= |keys|
    ensures best < n
    decreases n
  {
    if n == 1 then 0
    else
      var b := LastLargest(keys, n - 1);
      if LexLess(keys[n - 1], keys[b]) then b else n - 1
  }

  /** The chosen key is the largest, and every later key is smaller. */
  lemma {:induction false} LastLargestIsMax(keys: seq<seq<int>>, n: nat)
    requires 0 < n <= |keys|
    ensures forall k :: 0 <= k < n ==> !LexLess(keys[LastLargest(keys, n)], keys[k])
    ensures forall k :: LastLargest(keys, n) < k < n ==> LexLess(keys[k], keys[LastLargest(keys, n)])
    decreases n
  {
    if n == 1 {
      LexLessIrreflexive(keys[0]);
    } else {
      LastLargestIsMax(keys, n - 1);
      var b := LastLargest(keys, n - 1);
      if !LexLess(keys[n - 1], keys[b]) {
        NewLargest(keys, n, b);
      } else {
        LexLessIrreflexive(keys[b]);
        if LexLess(keys[b], keys[n - 1]) {
          LexLessTransitive(keys[b], keys[n - 1], keys[b]);
        }
      }
    }
  }

  /** The step where key `n - 1` does not rank below the best so far. */
  lemma NewLargest(keys: seq<seq<int>>, n: nat, b: nat)
    requires 1 < n <= |keys| && b < n - 1
    requires forall k :: 0 <= k < n - 1 ==> !LexLess(keys[b], keys[k])
    requires !LexLess(keys[n - 1], keys[b])
    ensures forall k :: 0 <= k < n ==> !LexLess(keys[n - 1], keys[k])
  {
    var kt := keys[n - 1];
    var kb := keys[b];
    LexLessTotal(kt, kb);
    LexLessIrreflexive(kt);
    forall k | 0 <= k < n ensures !LexLess(kt, keys[k]) {
      if k < n - 1 && LexLess(kt, keys[k]) && kt != kb {
        LexLessTransitive(kb, kt, keys[k]);
      }
    }
  }

  /** The branch name recorded for a checkout: the active branch, or for a
      detached head the release tag on its commit with the highest version
      (`'detached'` when there is none, ValueError when a release tag's
      version has a part that is not an integer). */
  function BranchName(detached: bool, activeBranch: string, tagsOnCommit: seq<string>): (r: Result<string, PyError>)
    ensures !detached ==> r == Ok(activeBranch)
    ensures detached && ReleaseTags(tagsOnCommit) == [] ==> r == Ok("detached")
    ensures detached && !AllKeyed(ReleaseTags(tagsOnCommit)) ==> r.Err?
    ensures detached && r.Ok? && r.value != "detached" ==> r.value in tagsOnCommit && PyStr.StartsWith(r.value, "v")
  {
    if !detached then Ok(activeBranch)
    else
      var releases := ReleaseTags(tagsOnCommit);
      if |releases| == 0 then Ok("detached")
      else if !AllKeyed(releases) then Err(ValueError("invalid literal for int() with base 10"))
      else Ok(releases[LastLargest(Keys(releases), |releases|)])
  }

  /** A detached head picks a release tag no other release tag on the commit
      outranks. */
  lemma {:induction false} DetachedPicksHighest(activeBranch: string, tagsOnCommit: seq<string>)
    requires AllKeyed(ReleaseTags(tagsOnCommit)) && ReleaseTags(tagsOnCommit) != []
    ensures BranchName(true, activeBranch, tagsOnCommit).Ok?
    ensures var chosen := BranchName(true, activeBranch, tagsOnCommit).value;
            chosen in ReleaseTags(tagsOnCommit) && VersionKey(chosen).Some? &&
            forall t :: t in ReleaseTags(tagsOnCommit) ==> VersionKey(t).Some? && !LexLess(VersionKey(chosen).value, VersionKey(t).value)
  {
    var releases := ReleaseTags(tagsOnCommit);
    var keys := Keys(releases);
    LastLargestIsMax(keys, |keys|);
    var chosen := LastLargest(keys, |keys|);
    forall t | t in releases
      ensures VersionKey(t).Some? && !LexLess(VersionKey(releases[chosen]).value, VersionKey(t).value)
    {
      var k :| 0 <= k < |releases| && releases[k] == t;
    }
  }

  // ---------------------------------------------------------------- the record

  /** The traceability record of one checkout: its name, then the dict of
      `url`, `branch`, `commit`, `committed_date` and `path`.  `remoteUrl` is
      the origin's URL when the checkout has a remote; without one the URL is
      `''` and the name is the folder's basename.  `committedDate` is the
      commit date already formatted. */
  function Record(remoteUrl: Option<string>, folderName: string, detached: bool, activeBranch: string,
                  tagsOnCommit: seq<string>, hexsha: string, committedDate: string, path: string)
    : (r: Result<(string, seq<(string, Value)>), PyError>)
    ensures r.Ok? <==> BranchName(detached, activeBranch, tagsOnCommit).Ok?
    ensures r.Ok? && remoteUrl.Some? ==> r.value.0 == RepoName(StripCredentials(remoteUrl.value))
    ensures r.Ok? && remoteUrl.None? ==> r.value.0 == folderName
    ensures r.Ok? ==> |r.value.1| == 5 && r.value.1[0] == ("url", VStr(if remoteUrl.Some? then CleanUrl(remoteUrl.value) else ""))
    ensures r.Ok? ==> r.value.1[1] == ("branch", VStr(BranchName(detached, activeBranch, tagsOnCommit).value))
    ensures r.Ok? ==> r.value.1[2] == ("commit", VStr(hexsha))
    ensures r.Ok? ==> r.value.1[3] == ("committed_date", VStr(committedDate)) && r.value.1[4] == ("path", VStr(path))
  {
    var url := if remoteUrl.Some? then StripCredentials(remoteUrl.value) else "";
    var name := if remoteUrl.Some? then RepoName(url) else folderName;
    match BranchName(detached, activeBranch, tagsOnCommit)
    case Err(e) => Err(e)
    case Ok(branch) =>
      var trimmed := TrimGitSuffix(url);
      var finalUrl := if IsSshForm(trimmed) then SshToHttps(trimmed) else trimmed;
      assert remoteUrl.None? ==> !IsSshForm(trimmed);
      Ok((name, [("url", VStr(finalUrl)), ("branch", VStr(branch)), ("commit", VStr(hexsha)),
                 ("committed_date", VStr(committedDate)), ("path", VStr(path))]))
  }
}
