/** internal/orchestrator/webhook_scaling.go: choosing the pool and target for a queued job. */
module Matching {
  import opened Basics

  /** Library text functions: trim; trim and lower-case; JSON string lists; comma splitting; repository
      URL normalisation; the host of a URL, if it has one; host equality. */
  datatype Library = Library(
    trim: string -> string, fold: string -> string, json: string -> Option<seq<string>>, parts: string -> seq<string>,
    normalize: string -> string, host: string -> Option<string>, sameHost: (string, string) -> bool)

  datatype Pool = Pool(id: int, provider: string, labels: string, scope: string, repositoryUrl: string)

  datatype JobEvent = JobEvent(htmlUrl: string, cloneUrl: string, fullName: string, labels: seq<string>)

  // ---------------------------------------------------------------- labels

  const DEFAULT_LABELS := ["self-hosted", "linux"]

  /** The trimmed parts that are not empty. */
  function Kept(lib: Library, parts: seq<string>): seq<string> {
    if parts == [] then []
    else
      var n := |parts| - 1;
      if lib.trim(parts[n]) != "" then Kept(lib, parts[..n]) + [lib.trim(parts[n])] else Kept(lib, parts[..n])
  }

  function PoolLabels(lib: Library, raw: string): seq<string> {
    if raw == "" then DEFAULT_LABELS
    else if lib.json(raw).Some? && lib.json(raw).value != [] then lib.json(raw).value
    else if Kept(lib, lib.parts(raw)) == [] then DEFAULT_LABELS
    else Kept(lib, lib.parts(raw))
  }

  ghost predicate Offers(lib: Library, raw: string, wanted: string) {
    exists k :: 0 <= k < |PoolLabels(lib, raw)| && lib.fold(PoolLabels(lib, raw)[k]) == wanted
  }

  /** The pool offers every label asked for; blank ones ask for nothing. */
  ghost predicate LabelsOk(lib: Library, raw: string, required: seq<string>) {
    forall k :: 0 <= k < |required| ==> lib.fold(required[k]) == "" || Offers(lib, raw, lib.fold(required[k]))
  }

  lemma LabelsOkMeans(lib: Library, raw: string, required: seq<string>)
    ensures LabelsOk(lib, raw, required) <==>
            forall k :: 0 <= k < |required| ==>
                          || lib.fold(required[k]) == ""
                          || exists l :: l in PoolLabels(lib, raw) && lib.fold(l) == lib.fold(required[k])
  {
    hide PoolLabels;
    forall wanted ensures Offers(lib, raw, wanted) <==> exists l :: l in PoolLabels(lib, raw) && lib.fold(l) == wanted {
      if l :| l in PoolLabels(lib, raw) && lib.fold(l) == wanted {
        var k :| 0 <= k < |PoolLabels(lib, raw)| && PoolLabels(lib, raw)[k] == l;
      }
    }
  }

  lemma {:induction false} KeptMembers(lib: Library, parts: seq<string>)
    ensures forall l :: l in Kept(lib, parts) <==> l != "" && exists k :: 0 <= k < |parts| && lib.trim(parts[k]) == l
  {
    if parts != [] {
      var n := |parts| - 1;
      KeptMembers(lib, parts[..n]);
      forall l ensures l in Kept(lib, parts) <==> l != "" && exists k :: 0 <= k < |parts| && lib.trim(parts[k]) == l {
        if k :| 0 <= k < |parts| && lib.trim(parts[k]) == l {
          assert k < n ==> lib.trim(parts[..n][k]) == l;
        }
        if k :| 0 <= k < n && lib.trim(parts[..n][k]) == l {
          assert lib.trim(parts[k]) == l;
        }
      }
    }
  }

  /** Some part of a comma list is not blank. */
  ghost predicate HasPart(lib: Library, raw: string) {
    exists k :: 0 <= k < |lib.parts(raw)| && lib.trim(lib.parts(raw)[k]) != ""
  }

  /** The labels a pool offers: a JSON list that is not empty; else the parts of a comma list that are not
      blank; else the two defaults. */
  lemma PoolLabelsMeans(lib: Library, raw: string)
    ensures var labels := PoolLabels(lib, raw);
            if raw != "" && lib.json(raw).Some? && lib.json(raw).value != [] then labels == lib.json(raw).value
            else if raw != "" && HasPart(lib, raw)
            then forall l :: l in labels <==>
                               l != "" && exists k :: 0 <= k < |lib.parts(raw)| && lib.trim(lib.parts(raw)[k]) == l
            else labels == ["self-hosted", "linux"]
  {
    KeptMembers(lib, lib.parts(raw));
    var kept := Kept(lib, lib.parts(raw));
    if kept != [] {
      assert kept[0] in kept;
      var k :| 0 <= k < |lib.parts(raw)| && lib.trim(lib.parts(raw)[k]) == kept[0];
      assert lib.trim(lib.parts(raw)[k]) != "";
    }
    if HasPart(lib, raw) {
      var k :| 0 <= k < |lib.parts(raw)| && lib.trim(lib.parts(raw)[k]) != "";
      assert lib.trim(lib.parts(raw)[k]) in kept;
    }
    hide Kept;
  }

  method ParsePoolLabels(lib: Library, raw: string) returns (labels: seq<string>)
    ensures labels == PoolLabels(lib, raw) && labels != []
  {
    if raw == "" {
      return DEFAULT_LABELS;
    }
    var arr := lib.json(raw);
    if arr.Some? && |arr.value| > 0 {
      return arr.value;
    }
    var parts := lib.parts(raw);
    labels := [];
    for i := 0 to |parts|
      invariant labels == Kept(lib, parts[..i])
    {
      assert parts[..i + 1][..i] == parts[..i];
      var trimmed := lib.trim(parts[i]);
      if trimmed != "" {
        labels := labels + [trimmed];
      }
    }
    assert parts[..|parts|] == parts;
    if |labels| == 0 {
      return DEFAULT_LABELS;
    }
  }

  /** True exactly if each label asked for is blank or is offered, up to case and surrounding space. */
  method LabelsMatch(lib: Library, raw: string, required: seq<string>) returns (ok: bool)
    ensures ok <==> LabelsOk(lib, raw, required)
    ensures ok <==> forall k :: 0 <= k < |required| ==>
                                  || lib.fold(required[k]) == ""
                                  || exists l :: l in PoolLabels(lib, raw) && lib.fold(l) == lib.fold(required[k])
  {
    LabelsOkMeans(lib, raw, required);
    if |required| == 0 {
      return true;
    }
    var list := ParsePoolLabels(lib, raw);
    hide PoolLabels;
    var offered: set<string> := {};
    for i := 0 to |list|
      invariant forall l :: l in offered <==> exists k :: 0 <= k < i && lib.fold(list[k]) == l
    {
      offered := offered + {lib.fold(list[i])};
    }
    assert forall l :: l in offered <==> Offers(lib, raw, l);
    hide Offers;
    for i := 0 to |required|
      invariant forall k :: 0 <= k < i ==> lib.fold(required[k]) == "" || Offers(lib, raw, lib.fold(required[k]))
    {
      var clean := lib.fold(required[i]);
      if clean != "" && clean !in offered {
        return false;
      }
    }
    return true;
  }

  // ---------------------------------------------------------------- scores

  /** What is asked: the folded provider, the normalised URLs of the repository, its folded full name. */
  datatype Query = Query(provider: string, urls: seq<string>, fullName: string, labels: seq<string>)

  function QueryOf(lib: Library, providerName: string, ev: JobEvent): Query {
    var provider := lib.fold(providerName);
    Query(provider,
          (if ev.htmlUrl != "" then [lib.normalize(ev.htmlUrl)] else []) +
          (if ev.cloneUrl != "" then [lib.normalize(ev.cloneUrl)] else []) +
          (if ev.fullName != "" && provider == "github"
           then [lib.normalize("https://github.com/" + ev.fullName)] else []),
          lib.fold(ev.fullName), ev.labels)
  }

  predicate StartsWith(s: string, prefix: string) {
    |prefix| <= |s| && s[..|prefix|] == prefix
  }

  predicate EndsWith(s: string, suffix: string) {
    |suffix| <= |s| && s[|s| - |suffix|..] == suffix
  }

  /** The part of a full name before its first slash. */
  function OrgPart(name: string): string {
    if name == "" || name[0] == '/' then "" else [name[0]] + OrgPart(name[1..])
  }

  ghost predicate RepoMatch(q: Query, url: string) {
    || url in q.urls
    || (q.fullName != "" && EndsWith(url, "/" + q.fullName))
  }

  ghost predicate OrgMatch(q: Query, url: string) {
    || (exists u :: u in q.urls && StartsWith(u, url + "/"))
    || (q.fullName != "" && EndsWith(url, "/" + OrgPart(q.fullName)))
  }

  ghost predicate HostMatch(lib: Library, q: Query, url: string) {
    && lib.host(url).Some?
    && exists u :: u in q.urls && lib.host(u).Some? && lib.sameHost(lib.host(url).value, lib.host(u).value)
  }

  function ScopeOf(lib: Library, p: Pool): string {
    if lib.fold(p.scope) == "" then "repo" else lib.fold(p.scope)
  }

  const REPO := 300
  const ORG := 200
  const GLOBAL := 100

  /** How specifically a target of a scope matches; -1 when it does not. */
  ghost function Score(lib: Library, q: Query, scope: string, url: string): int {
    if scope == "repo" && RepoMatch(q, url) then REPO
    else if scope == "org" && OrgMatch(q, url) then ORG
    else if scope == "global" && HostMatch(lib, q, url) then GLOBAL
    else -1
  }

  function TargetsFor(p: Pool, poolTargets: map<int, seq<string>>): seq<string> {
    if p.id in poolTargets && poolTargets[p.id] != [] then poolTargets[p.id]
    else if p.repositoryUrl != "" then [p.repositoryUrl] else []
  }

  ghost predicate Eligible(lib: Library, q: Query, p: Pool) {
    lib.fold(p.provider) == q.provider && LabelsOk(lib, p.labels, q.labels)
  }

  method ScoreTarget(lib: Library, q: Query, scope: string, url: string) returns (score: int)
    ensures score == Score(lib, q, scope, url)
  {
    score := -1;
    if scope == "repo" {
      var matched := false;
      for k := 0 to |q.urls|
        invariant !matched ==> url !in q.urls[..k]
        invariant matched ==> url in q.urls
      {
        if url == q.urls[k] {
          matched := true;
          break;
        }
      }
      if !matched && q.fullName != "" && EndsWith(url, "/" + q.fullName) {
        matched := true;
      }
      if matched {
        score := REPO;
      }
    } else if scope == "org" {
      var matched := ScoreOrg(q, url);
      if matched {
        score := ORG;
      }
    } else if scope == "global" {
      var matched := ScoreHost(lib, q, url);
      if matched {
        score := GLOBAL;
      }
    }
  }

  method ScoreOrg(q: Query, url: string) returns (matched: bool)
    ensures matched <==> OrgMatch(q, url)
  {
    hide EndsWith, StartsWith, OrgPart;
    matched := false;
    for k := 0 to |q.urls|
      invariant !matched ==> forall j :: 0 <= j < k ==> !StartsWith(q.urls[j], url + "/")
      invariant matched ==> exists u :: u in q.urls && StartsWith(u, url + "/")
    {
      if StartsWith(q.urls[k], url + "/") {
        matched := true;
        break;
      }
    }
    if !matched && q.fullName != "" {
      if EndsWith(url, "/" + OrgPart(q.fullName)) {
        matched := true;
      }
    }
  }

  method ScoreHost(lib: Library, q: Query, url: string) returns (matched: bool)
    ensures matched <==> HostMatch(lib, q, url)
  {
    matched := false;
    if lib.host(url).Some? {
      for k := 0 to |q.urls|
        invariant !matched ==> forall j :: 0 <= j < k ==>
                                 !(lib.host(q.urls[j]).Some? &&
                                   lib.sameHost(lib.host(url).value, lib.host(q.urls[j]).value))
        invariant matched ==> HostMatch(lib, q, url)
      {
        var h := lib.host(q.urls[k]);
        if h.Some? && lib.sameHost(lib.host(url).value, h.value) {
          matched := true;
          break;
        }
      }
    }
  }

  // ---------------------------------------------------------------- the best pair

  /** A request as MatchPoolForEventWithTargets sees it. */
  datatype Request = Request(lib: Library, q: Query, pools: seq<Pool>, targets: map<int, seq<string>>)

  ghost predicate Pair(r: Request, i: int, j: int) {
    0 <= i < |r.pools| && 0 <= j < |TargetsFor(r.pools[i], r.targets)|
  }

  /** The score of target j of pool i. */
  ghost function At(r: Request, i: int, j: int): int
    requires Pair(r, i, j)
  {
    var p := r.pools[i];
    if Eligible(r.lib, r.q, p)
    then Score(r.lib, r.q, ScopeOf(r.lib, p), r.lib.normalize(TargetsFor(p, r.targets)[j])) else -1
  }

  ghost predicate Earlier(i: int, j: int, i': int, j': int) {
    i < i' || (i == i' && j < j')
  }

  /** The first pair, in pool order then target order, of the highest score, among the pairs before (m, n). */
  ghost predicate BestBefore(r: Request, m: int, n: int, i: int, j: int) {
    && Pair(r, i, j) && Earlier(i, j, m, n) && At(r, i, j) > 0
    && forall k, l :: Pair(r, k, l) && Earlier(k, l, m, n) ==>
                        At(r, k, l) <= At(r, i, j) && (Earlier(k, l, i, j) ==> At(r, k, l) < At(r, i, j))
  }

  ghost predicate NoneBefore(r: Request, m: int, n: int) {
    forall k, l :: Pair(r, k, l) && Earlier(k, l, m, n) ==> At(r, k, l) < 0
  }

  ghost predicate Best(r: Request, i: int, j: int) {
    BestBefore(r, |r.pools|, 0, i, j)
  }

  ghost predicate Unmatched(r: Request) {
    NoneBefore(r, |r.pools|, 0)
  }

  /** The chosen pair so far. */
  datatype Choice = Choice(pool: int, index: int)

  ghost predicate Chosen(r: Request, m: int, n: int, best: Option<Choice>, score: int) {
    match best
    case None => score == -1 && NoneBefore(r, m, n)
    case Some(c) => BestBefore(r, m, n, c.pool, c.index) && score == At(r, c.pool, c.index)
  }

  lemma AtValues(r: Request, i: int, j: int)
    requires Pair(r, i, j)
    ensures At(r, i, j) in {-1, GLOBAL, ORG, REPO}
  {
    hide RepoMatch, OrgMatch, HostMatch, Eligible;
  }

  /** Looking at one more pair. */
  lemma ChosenStep(r: Request, m: int, n: int, best: Option<Choice>, score: int)
    requires Pair(r, m, n) && Chosen(r, m, n, best, score)
    ensures At(r, m, n) > score ==> Chosen(r, m, n + 1, Some(Choice(m, n)), At(r, m, n))
    ensures At(r, m, n) <= score ==> Chosen(r, m, n + 1, best, score)
  {
    AtValues(r, m, n);
    hide At, Pair;
    assert forall k, l :: Earlier(k, l, m, n + 1) <==> Earlier(k, l, m, n) || (k == m && l == n);
  }

  /** A pool with no further targets, or none that count. */
  lemma ChosenNext(r: Request, m: int, n: int, best: Option<Choice>, score: int)
    requires 0 <= m < |r.pools| && Chosen(r, m, n, best, score) && n >= 0
    requires n == |TargetsFor(r.pools[m], r.targets)| || (n == 0 && !Eligible(r.lib, r.q, r.pools[m]))
    ensures Chosen(r, m + 1, 0, best, score)
  {
    hide Eligible, Score, TargetsFor, ScopeOf;
    forall k, l | Pair(r, k, l) && Earlier(k, l, m + 1, 0) ensures Earlier(k, l, m, n) || At(r, k, l) == -1 {
    }
    if best.Some? {
      var c := best.value;
      assert At(r, c.pool, c.index) > 0;
    }
    hide At;
  }

  lemma ChosenStart(r: Request)
    ensures Chosen(r, 0, 0, None, -1)
  {
  }

  /** MatchPoolForEventWithTargets, over the targets given as already listed. */
  method MatchPool(lib: Library, pools: seq<Pool>, poolTargets: map<int, seq<string>>, providerName: string,
                   event: Option<JobEvent>)
    returns (pool: Option<Pool>, target: string)
    ensures event.None? ==> pool.None? && target == ""
    ensures event.Some? ==>
              var r := Request(lib, QueryOf(lib, providerName, event.value), pools, poolTargets);
              && (pool.None? ==> Unmatched(r) && target == "")
              && (pool.Some? ==> exists i, j ::
                    && Best(r, i, j) && pool.value == pools[i]
                    && target == (var t := TargetsFor(pools[i], poolTargets)[j];
                                  if t == "" then pools[i].repositoryUrl else t))
  {
    if event.None? || |pools| == 0 {
      return None, "";
    }
    var q := BuildQuery(lib, providerName, event.value);
    hide QueryOf, At, Score, BestBefore, NoneBefore, Eligible, TargetsFor;
    ghost var r := Request(lib, q, pools, poolTargets);
    var best: Option<Choice> := None;
    var bestScore := -1;
    pool, target := None, "";
    ChosenStart(r);
    for i := 0 to |pools|
      invariant Chosen(r, i, 0, best, bestScore)
      invariant best.None? ==> pool.None? && target == ""
      invariant best.Some? ==>
                  && Pair(r, best.value.pool, best.value.index) && pool == Some(pools[best.value.pool])
                  && target == TargetsFor(pools[best.value.pool], poolTargets)[best.value.index]
    {
      var ok := IsEligible(lib, q, pools[i]);
      if ok {
        var targets := TargetsFor(pools[i], poolTargets);
        for j := 0 to |targets|
          invariant Chosen(r, i, j, best, bestScore)
          invariant best.None? ==> pool.None? && target == ""
          invariant best.Some? ==>
                      && Pair(r, best.value.pool, best.value.index) && pool == Some(pools[best.value.pool])
                      && target == TargetsFor(pools[best.value.pool], poolTargets)[best.value.index]
        {
          var score := ScoreTarget(lib, q, ScopeOf(lib, pools[i]), lib.normalize(targets[j]));
          AtIs(r, i, j);
          ChosenStep(r, i, j, best, bestScore);
          if score > bestScore {
            best, bestScore := Some(Choice(i, j)), score;
            pool, target := Some(pools[i]), targets[j];
          }
        }
        ChosenNext(r, i, |targets|, best, bestScore);
      } else {
        ChosenNext(r, i, 0, best, bestScore);
      }
    }
    if pool.Some? {
      assert Best(r, best.value.pool, best.value.index);
      if target == "" {
        target := pool.value.repositoryUrl;
      }
    }
  }

  lemma AtIs(r: Request, i: int, j: int)
    requires Pair(r, i, j) && Eligible(r.lib, r.q, r.pools[i])
    ensures At(r, i, j) ==
            Score(r.lib, r.q, ScopeOf(r.lib, r.pools[i]), r.lib.normalize(TargetsFor(r.pools[i], r.targets)[j]))
  {
  }

  method IsEligible(lib: Library, q: Query, p: Pool) returns (ok: bool)
    ensures ok <==> Eligible(lib, q, p)
  {
    if lib.fold(p.provider) != q.provider {
      return false;
    }
    ok := LabelsMatch(lib, p.labels, q.labels);
  }

  /** What an event asks for: its repository under the URLs it carries, normalised, and for GitHub also under
      the one its full name makes. */
  method BuildQuery(lib: Library, providerName: string, ev: JobEvent) returns (q: Query)
    ensures q == QueryOf(lib, providerName, ev)
    ensures q.provider == lib.fold(providerName) && q.fullName == lib.fold(ev.fullName) && q.labels == ev.labels
    ensures forall u :: u in q.urls <==>
                          || (ev.htmlUrl != "" && u == lib.normalize(ev.htmlUrl))
                          || (ev.cloneUrl != "" && u == lib.normalize(ev.cloneUrl))
                          || (&& ev.fullName != "" && lib.fold(providerName) == "github"
                              && u == lib.normalize("https://github.com/" + ev.fullName))
  {
    var provider := lib.fold(providerName);
    var urls: seq<string> := [];
    if ev.htmlUrl != "" {
      urls := urls + [lib.normalize(ev.htmlUrl)];
    }
    if ev.cloneUrl != "" {
      urls := urls + [lib.normalize(ev.cloneUrl)];
    }
    if ev.fullName != "" && provider == "github" {
      urls := urls + [lib.normalize("https://github.com/" + ev.fullName)];
    }
    q := Query(provider, urls, lib.fold(ev.fullName), ev.labels);
  }

  // ---------------------------------------------------------------- what a match means

  lemma StartsWithMeans(s: string, prefix: string)
    ensures StartsWith(s, prefix) <==> exists rest :: s == prefix + rest
  {
    if StartsWith(s, prefix) {
      assert s == prefix + s[|prefix|..];
    }
  }

  /** `s` is something followed by `suffix`. */
  ghost predicate Concludes(s: string, suffix: string) {
    exists front :: s == front + suffix
  }

  lemma EndsWithMeans(s: string, suffix: string)
    ensures EndsWith(s, suffix) <==> Concludes(s, suffix)
  {
    if EndsWith(s, suffix) {
      assert s == s[..|s| - |suffix|] + suffix;
    }
    if front :| s == front + suffix {
      assert s[|s| - |suffix|..] == suffix;
    }
  }

  /** The organisation of a full name is all of it before its first slash. */
  lemma {:induction false} OrgPartMeans(name: string)
    ensures '/' !in OrgPart(name)
    ensures OrgPart(name) == name || exists rest :: name == OrgPart(name) + "/" + rest
  {
    if name != "" && name[0] != '/' {
      OrgPartMeans(name[1..]);
      var tail := OrgPart(name[1..]);
      if tail != name[1..] {
        var rest :| name[1..] == tail + "/" + rest;
        assert name == OrgPart(name) + "/" + rest;
      } else {
        assert name == [name[0]] + name[1..];
      }
    } else if name != "" {
      assert name == "" + "/" + name[1..];
    }
  }

  /** A repository target is one of the event's URLs, or ends in a slash and the full name. */
  lemma RepoMatchMeans(q: Query, url: string)
    ensures RepoMatch(q, url) <==>
            url in q.urls || (q.fullName != "" && Concludes(url, "/" + q.fullName))
  {
    EndsWithMeans(url, "/" + q.fullName);
    hide EndsWith, Concludes;
  }

  /** An organisation target is followed by a slash in one of the event's URLs, or ends in a slash and the
      organisation of the full name. */
  lemma OrgMatchMeans(q: Query, url: string)
    ensures OrgMatch(q, url) <==>
            (exists u :: u in q.urls && Continues(u, url + "/")) ||
            (q.fullName != "" && Concludes(url, "/" + OrgPart(q.fullName)))
  {
    EndsWithMeans(url, "/" + OrgPart(q.fullName));
    forall u ensures StartsWith(u, url + "/") <==> Continues(u, url + "/") {
      StartsWithMeans(u, url + "/");
    }
    hide EndsWith, StartsWith, Continues, Concludes;
  }

  ghost predicate Continues(s: string, prefix: string) {
    exists rest :: s == prefix + rest
  }

  /** The targets tried for a pool: those stored for it, or else its repository. */
  lemma TargetsForMeans(p: Pool, poolTargets: map<int, seq<string>>, t: string)
    ensures t in TargetsFor(p, poolTargets) <==>
            if p.id in poolTargets && poolTargets[p.id] != [] then t in poolTargets[p.id]
            else t == p.repositoryUrl && p.repositoryUrl != ""
  {
  }

  // ---------------------------------------------------------------- what the choice means

  /** At most one pair is the best: the choice depends on the request alone. */
  lemma BestIsUnique(r: Request, i: int, j: int, k: int, l: int)
    requires Best(r, i, j) && Best(r, k, l)
    ensures i == k && j == l
  {
    hide At;
  }

  function Url(r: Request, i: int, j: int): string
    requires 0 <= i < |r.pools| && 0 <= j < |TargetsFor(r.pools[i], r.targets)|
  {
    r.lib.normalize(TargetsFor(r.pools[i], r.targets)[j])
  }

  /** The pool has the event's provider and offers its labels. */
  ghost predicate Fits(r: Request, p: Pool) {
    r.lib.fold(p.provider) == r.q.provider && LabelsOk(r.lib, p.labels, r.q.labels)
  }

  /** What a score says: the pool fits, and its target matches as its scope asks, a blank scope being that of
      a repository. */
  lemma ScoreMeans(r: Request, i: int, j: int)
    requires Pair(r, i, j)
    ensures At(r, i, j) > 0 ==> Fits(r, r.pools[i])
    ensures At(r, i, j) == REPO <==>
              && Fits(r, r.pools[i]) && r.lib.fold(r.pools[i].scope) in {"", "repo"} && RepoMatch(r.q, Url(r, i, j))
    ensures At(r, i, j) == ORG <==>
              Fits(r, r.pools[i]) && r.lib.fold(r.pools[i].scope) == "org" && OrgMatch(r.q, Url(r, i, j))
    ensures At(r, i, j) == GLOBAL <==>
              && Fits(r, r.pools[i]) && r.lib.fold(r.pools[i].scope) == "global"
              && (exists u :: && u in r.q.urls && r.lib.host(Url(r, i, j)).Some? && r.lib.host(u).Some?
                              && r.lib.sameHost(r.lib.host(Url(r, i, j)).value, r.lib.host(u).value))
  {
    hide RepoMatch, OrgMatch, TargetsFor, LabelsOk;
    assert "repo"[0] != "org"[0] && "org"[0] != "global"[0] && "repo"[0] != "global"[0];
  }

  /** Repository pools beat organisation pools, which beat instance-wide ones, in whatever order they are
      listed; the pool chosen has the event's provider and all its labels, and nothing is chosen exactly
      when nothing matches. */
  lemma MostSpecificWins(r: Request, i: int, j: int, k: int, l: int)
    requires Best(r, i, j) && Pair(r, k, l) && Fits(r, r.pools[k])
    ensures Fits(r, r.pools[i]) && !Unmatched(r)
    ensures r.lib.fold(r.pools[k].scope) in {"", "repo"} && RepoMatch(r.q, Url(r, k, l)) ==>
              && r.lib.fold(r.pools[i].scope) in {"", "repo"} && RepoMatch(r.q, Url(r, i, j)) && i <= k
    ensures r.lib.fold(r.pools[k].scope) == "org" && OrgMatch(r.q, Url(r, k, l)) ==>
              r.lib.fold(r.pools[i].scope) in {"", "repo", "org"}
    ensures r.lib.fold(r.pools[k].scope) == "global" && HostMatch(r.lib, r.q, Url(r, k, l)) ==>
              r.lib.fold(r.pools[i].scope) in {"", "repo", "org", "global"}
  {
    AtValues(r, i, j);
    AtValues(r, k, l);
    ScoreMeans(r, i, j);
    ScoreMeans(r, k, l);
    hide At, RepoMatch, OrgMatch, LabelsOk, TargetsFor;
    assert At(r, k, l) <= At(r, i, j);
    assert Earlier(i, j, |r.pools|, 0);
  }
}
