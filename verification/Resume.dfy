/** Which attempts of a sweep a job still has to run: coordinates, the directory
    names that record them, and the prefix match that skips what is done. */
module Resume {
  import opened Common
  import opened Sorting
  import opened Text

  // ------------------------------------------------------------------
  // Names
  // ------------------------------------------------------------------

  /** The format `{:03}`. */
  function Padded(n: nat): string {
    var digits := Decimal(n);
    if |digits| == 1 then "00" + digits
    else if |digits| == 2 then "0" + digits
    else digits
  }

  /** At least three digits, and no zero in front of more. */
  lemma PaddedDigits(n: nat)
    ensures |Padded(n)| >= 3 && AllDigits(Padded(n)) && (|Padded(n)| > 3 ==> Padded(n)[0] != '0')
  {
    DecimalDigits(n);
  }

  /** Trial numbers are read back from their padded form, also past 999. */
  lemma PaddedReadsBack(n: nat)
    ensures Value(Padded(n)) == n
  {
    var digits := Decimal(n);
    DecimalValue(n);
    LeadingZero(digits);
    LeadingZero("0" + digits);
    assert "0" + ("0" + digits) == "00" + digits;
  }

  /** `name.rsplit('/').next()` */
  function ShortName(name: string): string {
    if name == "" then ""
    else if name[|name| - 1] == '/' then ""
    else ShortName(name[..|name| - 1]) + [name[|name| - 1]]
  }

  /** What follows the last slash, or the whole name. */
  lemma {:induction false} ShortNameExact(name: string)
    ensures var n := |name| - |ShortName(name)|;
      && n >= 0 && name[n..] == ShortName(name) && (n > 0 ==> name[n - 1] == '/')
      && forall i :: n <= i < |name| ==> name[i] != '/'
  {
    if name != "" && name[|name| - 1] != '/' {
      ShortNameExact(name[..|name| - 1]);
    }
  }

  datatype Task = Task(root: string, name: string)

  datatype Sweep = Sweep(tasks: seq<Task>, agents: seq<string>, trials: nat)

  /** One attempt: indices of its task and agent, and its one-based trial. */
  datatype Coordinate = Coordinate(task: nat, agent: nat, trial: nat)

  predicate Valid(s: Sweep, c: Coordinate) {
    c.task < |s.tasks| && c.agent < |s.agents| && 1 <= c.trial <= s.trials
  }

  /** The part of a trial's name that its trial number does not change. */
  function Key(s: Sweep, task: nat, agent: nat): string
    requires task < |s.tasks| && agent < |s.agents|
  {
    ShortName(s.tasks[task].name) + "__" + s.agents[agent]
  }

  function TrialPrefix(s: Sweep, c: Coordinate): string
    requires Valid(s, c)
  {
    Key(s, c.task, c.agent) + "__" + Padded(c.trial)
  }

  /** The first eight characters of a UUID in hexadecimal. */
  predicate ShortId(id: string) {
    |id| == 8 && forall i :: 0 <= i < |id| ==> '0' <= id[i] <= '9' || 'a' <= id[i] <= 'f'
  }

  function TrialName(s: Sweep, c: Coordinate, id: string): string
    requires Valid(s, c)
  {
    TrialPrefix(s, c) + "__" + id
  }

  /** `name.strip_prefix(prefix)` followed by `starts_with("__")` */
  predicate Matches(prefix: string, name: string) {
    prefix <= name && "__" <= name[|prefix|..]
  }

  // ------------------------------------------------------------------
  // The job directory
  // ------------------------------------------------------------------

  /** A directory entry; `name` is None when it is not UTF-8. */
  datatype DirEntry = DirEntry(name: Option<string>, isDirectory: bool, hasResult: bool)

  predicate Durable(e: DirEntry) {
    e.isDirectory && e.name.Some? && e.hasResult
  }

  predicate Completed(directory: seq<DirEntry>, prefix: string) {
    exists i :: 0 <= i < |directory| && Durable(directory[i]) && Matches(prefix, directory[i].name.value)
  }

  /** `completed_attempt` */
  method CompletedAttempt(directory: seq<DirEntry>, prefix: string) returns (completed: bool)
    ensures completed == Completed(directory, prefix)
  {
    for i := 0 to |directory|
      invariant forall j :: 0 <= j < i ==> !(Durable(directory[j]) && Matches(prefix, directory[j].name.value))
    {
      var e := directory[i];
      if !e.isDirectory {
        continue;
      }
      if e.name.None? {
        continue;
      }
      if prefix <= e.name.value && "__" <= e.name.value[|prefix|..] && e.hasResult {
        return true;
      }
    }
    return false;
  }

  // ------------------------------------------------------------------
  // Expansion
  // ------------------------------------------------------------------

  /** One agent after another. */
  function Row(trial: nat, task: nat, agents: nat): seq<Coordinate> {
    seq(agents, agent requires 0 <= agent < agents => Coordinate(task, agent, trial))
  }

  function Rows(trial: nat, tasks: nat, agents: nat): seq<seq<Coordinate>> {
    seq(tasks, task requires 0 <= task < tasks => Row(trial, task, agents))
  }

  function Blocks(trials: nat, tasks: nat, agents: nat): seq<seq<Coordinate>> {
    seq(trials, k requires 0 <= k < trials => Concat(Rows(k + 1, tasks, agents)))
  }

  /** `Sweep::attempts`: by trial, then task, then agent. */
  function Attempts(s: Sweep): seq<Coordinate> {
    Concat(Blocks(s.trials, |s.tasks|, |s.agents|))
  }

  predicate Earlier(a: Coordinate, b: Coordinate) {
    a.trial < b.trial
    || (a.trial == b.trial && (a.task < b.task || (a.task == b.task && a.agent < b.agent)))
  }

  lemma InRow(c: Coordinate, trial: nat, task: nat, agents: nat)
    ensures c in Row(trial, task, agents) <==> c.trial == trial && c.task == task && c.agent < agents
  {
    if c.trial == trial && c.task == task && c.agent < agents {
      assert Row(trial, task, agents)[c.agent] == c;
    }
  }

  lemma InBlock(c: Coordinate, trial: nat, tasks: nat, agents: nat)
    ensures c in Concat(Rows(trial, tasks, agents)) <==> c.trial == trial && c.task < tasks && c.agent < agents
  {
    var rows := Rows(trial, tasks, agents);
    InConcat(c, rows);
    forall task | 0 <= task < tasks
      ensures c in rows[task] <==> c.trial == trial && c.task == task && c.agent < agents
    {
      InRow(c, trial, task, agents);
    }
    if c.trial == trial && c.task < tasks && c.agent < agents {
      assert c in rows[c.task];
    }
  }

  lemma InAttempts(c: Coordinate, s: Sweep)
    ensures c in Attempts(s) <==> Valid(s, c)
  {
    var blocks := Blocks(s.trials, |s.tasks|, |s.agents|);
    InConcat(c, blocks);
    forall k | 0 <= k < s.trials
      ensures c in blocks[k] <==> c.trial == k + 1 && c.task < |s.tasks| && c.agent < |s.agents|
    {
      InBlock(c, k + 1, |s.tasks|, |s.agents|);
    }
    if Valid(s, c) {
      assert c in blocks[c.trial - 1];
    }
  }

  lemma BlockAscends(trial: nat, tasks: nat, agents: nat)
    ensures Ascending(Earlier, Concat(Rows(trial, tasks, agents)))
  {
    var rows := Rows(trial, tasks, agents);
    forall i, j, x, y | 0 <= i < j < tasks && x in rows[i] && y in rows[j]
      ensures Earlier(x, y)
    {
      InRow(x, trial, i, agents);
      InRow(y, trial, j, agents);
    }
    ConcatAscends(Earlier, rows);
  }

  lemma AttemptsAscend(s: Sweep)
    ensures Ascending(Earlier, Attempts(s))
  {
    var tasks, agents := |s.tasks|, |s.agents|;
    var blocks := Blocks(s.trials, tasks, agents);
    forall k | 0 <= k < s.trials
      ensures Ascending(Earlier, blocks[k])
    {
      BlockAscends(k + 1, tasks, agents);
    }
    forall i, j, x, y | 0 <= i < j < s.trials && x in blocks[i] && y in blocks[j]
      ensures Earlier(x, y)
    {
      InBlock(x, i + 1, tasks, agents);
      InBlock(y, j + 1, tasks, agents);
    }
    ConcatAscends(Earlier, blocks);
  }

  lemma AttemptsSize(s: Sweep)
    ensures |Attempts(s)| == s.trials * (|s.tasks| * |s.agents|)
  {
    var blocks := Blocks(s.trials, |s.tasks|, |s.agents|);
    forall k | 0 <= k < s.trials
      ensures |blocks[k]| == |s.tasks| * |s.agents|
    {
      ConcatSize(Rows(k + 1, |s.tasks|, |s.agents|), |s.agents|);
    }
    ConcatSize(blocks, |s.tasks| * |s.agents|);
  }

  /** The sweep expands to each coordinate exactly once, in trial-task-agent order. */
  lemma AttemptsExact(s: Sweep)
    ensures |Attempts(s)| == s.trials * (|s.tasks| * |s.agents|)
    ensures Ascending(Earlier, Attempts(s))
    ensures forall c :: c in Attempts(s) <==> Valid(s, c)
  {
    AttemptsSize(s);
    AttemptsAscend(s);
    forall c
      ensures c in Attempts(s) <==> Valid(s, c)
    {
      InAttempts(c, s);
    }
  }

  // ------------------------------------------------------------------
  // When the prefix match is exact
  // ------------------------------------------------------------------

  /** A name `trial_name` gives the attempt, for some attempt id. */
  predicate NameOf(s: Sweep, c: Coordinate, name: string)
    requires Valid(s, c)
  {
    |name| >= 8 && ShortId(name[|name| - 8..]) && name == TrialName(s, c, name[|name| - 8..])
  }

  ghost predicate HasResult(s: Sweep, directory: seq<DirEntry>, c: Coordinate)
    requires Valid(s, c)
  {
    exists i :: 0 <= i < |directory| && Durable(directory[i]) && NameOf(s, c, directory[i].name.value)
  }

  ghost predicate OwnedBy(s: Sweep, done: set<Coordinate>, name: string) {
    exists c :: c in done && Valid(s, c) && NameOf(s, c, name)
  }

  /** The directory records the results `done`: each has its directory, and no
      other directory has a result. */
  ghost predicate Records(s: Sweep, directory: seq<DirEntry>, done: set<Coordinate>) {
    && AllPresent(s, directory, done)
    && AllOwned(s, directory, done)
  }

  ghost predicate AllPresent(s: Sweep, directory: seq<DirEntry>, done: set<Coordinate>) {
    forall c :: c in done ==> Valid(s, c) && HasResult(s, directory, c)
  }

  ghost predicate AllOwned(s: Sweep, directory: seq<DirEntry>, done: set<Coordinate>) {
    forall i {:trigger OwnedBy(s, done, directory[i].name.value)} ::
      0 <= i < |directory| && Durable(directory[i]) ==> OwnedBy(s, done, directory[i].name.value)
  }

  ghost predicate SkipsExactly(s: Sweep, directory: seq<DirEntry>, done: set<Coordinate>) {
    forall c :: Valid(s, c) ==> (Completed(directory, TrialPrefix(s, c)) <==> c in done)
  }

  /** In every job directory, an attempt is skipped exactly when its own result is there. */
  ghost predicate ResumeExact(s: Sweep) {
    forall directory, done :: Records(s, directory, done) ==> SkipsExactly(s, directory, done)
  }

  /** No key equals another's or continues another's trial prefix. */
  ghost predicate Distinguished(key: string, other: string, trials: nat) {
    && key != other
    && forall k: nat :: 1 <= k <= trials ==> !(other + "__" + Padded(k) + "__" <= key + "__")
  }

  /** Checkable before the sweep starts. */
  ghost predicate Unambiguous(s: Sweep) {
    forall t: nat, a: nat, t': nat, a': nat ::
      t < |s.tasks| && a < |s.agents| && t' < |s.tasks| && a' < |s.agents| && (t != t' || a != a') ==>
        Distinguished(Key(s, t, a), Key(s, t', a'), s.trials)
  }

  predicate NoUnderscore(s: string) {
    forall i :: 0 <= i < |s| ==> s[i] != '_'
  }

  /** Text up to a final run of characters other than `_`, after a separator. */
  lemma LastFieldEqual(k: string, p: string, k': string, p': string)
    requires NoUnderscore(p) && NoUnderscore(p') && k + "__" + p == k' + "__" + p'
    ensures k == k' && p == p'
  {
    LastFieldNoLonger(k, p, k', p');
    LastFieldNoLonger(k', p', k, p);
    var l, r := k + "__" + p, k' + "__" + p';
    assert k == l[..|k|] && k' == r[..|k'|] && p == l[|k| + 2..] && p' == r[|k'| + 2..];
  }

  lemma LastFieldNoLonger(k: string, p: string, k': string, p': string)
    requires NoUnderscore(p) && k + "__" + p == k' + "__" + p'
    ensures |k'| <= |k|
  {
    var l, r := k + "__" + p, k' + "__" + p';
    assert r[|k'| + 1] == '_';
    assert forall j :: |k| + 2 <= j < |l| ==> l[j] == p[j - (|k| + 2)];
  }

  /** Where a prefix ending in the separator can end inside a trial name. */
  lemma PrefixEnds(k: string, p: string, id: string, prefix: string)
    requires p != "" && NoUnderscore(p) && NoUnderscore(id)
    requires prefix + "__" <= k + "__" + p + "__" + id
    ensures prefix + "__" <= k + "__" || prefix == k + "__" + p
  {
    var name := k + "__" + p + "__" + id;
    var whole := prefix + "__";
    var e := |whole|;
    assert whole[e - 1] == '_' && whole[e - 2] == '_';
    assert name[e - 1] == '_' && name[e - 2] == '_';
    assert forall i :: 0 <= i < |p| ==> name[|k| + 2 + i] == p[i];
    assert forall i :: 0 <= i < |id| ==> name[|k| + |p| + 4 + i] == id[i];
    assert e - 1 < |k| + 2 || e - 1 >= |k| + 2 + |p|;
    assert e - 2 < |k| + 2 || e - 2 >= |k| + 2 + |p|;
    assert e - 1 < |k| + |p| + 4;
    if e <= |k| + 2 {
      assert name[..|k| + 2] == k + "__";
      assert whole == name[..e];
    } else {
      assert e == |k| + |p| + 4;
      assert whole == name[..e] == k + "__" + p + "__";
      assert prefix == whole[..e - 2];
    }
  }

  /** What it takes for the name of one attempt's directory to be taken for another's. */
  lemma MatchShape(s: Sweep, c: Coordinate, id: string, c': Coordinate)
    requires Valid(s, c) && Valid(s, c') && ShortId(id)
    ensures Matches(TrialPrefix(s, c'), TrialName(s, c, id)) <==>
      (Key(s, c.task, c.agent) == Key(s, c'.task, c'.agent) && c.trial == c'.trial)
      || TrialPrefix(s, c') + "__" <= Key(s, c.task, c.agent) + "__"
  {
    var k, k' := Key(s, c.task, c.agent), Key(s, c'.task, c'.agent);
    var p, p' := Padded(c.trial), Padded(c'.trial);
    var prefix, name := TrialPrefix(s, c'), TrialName(s, c, id);
    PaddedDigits(c.trial);
    PaddedDigits(c'.trial);
    MatchIsPrefix(prefix, name);
    if prefix + "__" <= name {
      PrefixEnds(k, p, id, prefix);
      if prefix == k + "__" + p {
        LastFieldEqual(k, p, k', p');
        PaddedReadsBack(c.trial);
        PaddedReadsBack(c'.trial);
      }
    }
    if prefix + "__" <= k + "__" {
      assert k + "__" <= name;
    }
    if k == k' && c.trial == c'.trial {
      assert prefix + "__" <= name;
    }
  }

  lemma MatchIsPrefix(prefix: string, name: string)
    ensures Matches(prefix, name) <==> prefix + "__" <= name
  {
  }

  lemma NameOfTrial(s: Sweep, c: Coordinate, id: string)
    requires Valid(s, c) && ShortId(id)
    ensures NameOf(s, c, TrialName(s, c, id))
  {
    var name := TrialName(s, c, id);
    assert name[|name| - 8..] == id;
  }

  lemma LongerThanKey(s: Sweep, c: Coordinate)
    requires Valid(s, c)
    ensures !(TrialPrefix(s, c) + "__" <= Key(s, c.task, c.agent) + "__")
  {
    PaddedDigits(c.trial);
  }

  /** An attempt's own directory always counts; another's only if the sweep is ambiguous. */
  lemma UnambiguousMatch(s: Sweep, c: Coordinate, name: string, c': Coordinate)
    requires Unambiguous(s) && Valid(s, c) && Valid(s, c') && NameOf(s, c, name)
    ensures Matches(TrialPrefix(s, c'), name) <==> c == c'
  {
    MatchShape(s, c, name[|name| - 8..], c');
    if c.task == c'.task && c.agent == c'.agent {
      LongerThanKey(s, c');
    } else {
      assert Distinguished(Key(s, c.task, c.agent), Key(s, c'.task, c'.agent), s.trials);
    }
  }

  lemma UnambiguousIsExact(s: Sweep, directory: seq<DirEntry>, done: set<Coordinate>, c: Coordinate)
    requires Unambiguous(s) && Records(s, directory, done) && Valid(s, c)
    ensures Completed(directory, TrialPrefix(s, c)) <==> c in done
  {
    if Completed(directory, TrialPrefix(s, c)) {
      var i :| 0 <= i < |directory| && Durable(directory[i]) && Matches(TrialPrefix(s, c), directory[i].name.value);
      var name := directory[i].name.value;
      assert OwnedBy(s, done, name);
      var d :| d in done && Valid(s, d) && NameOf(s, d, name);
      UnambiguousMatch(s, d, name, c);
    }
    if c in done {
      assert HasResult(s, directory, c);
      var i :| 0 <= i < |directory| && Durable(directory[i]) && NameOf(s, c, directory[i].name.value);
      UnambiguousMatch(s, c, directory[i].name.value, c);
    }
  }

  lemma SomeShortId() returns (id: string)
    ensures ShortId(id)
  {
    id := seq(8, _ => '0');
  }

  /** A directory that holds the result of `c` alone. */
  lemma OneResult(s: Sweep, c: Coordinate, name: string)
    requires Valid(s, c) && NameOf(s, c, name)
    ensures Records(s, [DirEntry(Some(name), true, true)], {c})
  {
    var directory := [DirEntry(Some(name), true, true)];
    assert Durable(directory[0]) && directory[0].name.value == name;
    assert HasResult(s, directory, c);
    assert OwnedBy(s, {c}, name);
  }

  lemma OneResultSkips(s: Sweep, name: string, c: Coordinate, other: Coordinate)
    requires Valid(s, other) && c != other && Matches(TrialPrefix(s, other), name)
    ensures !SkipsExactly(s, [DirEntry(Some(name), true, true)], {c})
  {
    var directory := [DirEntry(Some(name), true, true)];
    assert Durable(directory[0]) && directory[0].name.value == name;
    assert Completed(directory, TrialPrefix(s, other));
    assert other !in {c};
  }

  lemma ConfusionBreaksResume(s: Sweep, c: Coordinate, name: string, other: Coordinate)
    requires Valid(s, c) && Valid(s, other) && c != other
    requires NameOf(s, c, name) && Matches(TrialPrefix(s, other), name)
    ensures !ResumeExact(s)
  {
    OneResult(s, c, name);
    OneResultSkips(s, name, c, other);
  }

  /** Keys that are not distinguished give an attempt one of whose directories is
      taken for another's. */
  lemma Confusion(s: Sweep, t: nat, a: nat, t': nat, a': nat) returns (c: Coordinate, id: string, other: Coordinate)
    requires s.trials > 0 && t < |s.tasks| && a < |s.agents| && t' < |s.tasks| && a' < |s.agents|
    requires (t != t' || a != a') && !Distinguished(Key(s, t, a), Key(s, t', a'), s.trials)
    ensures Valid(s, c) && Valid(s, other) && c != other && ShortId(id)
    ensures Matches(TrialPrefix(s, other), TrialName(s, c, id))
  {
    var k: nat := 1;
    if Key(s, t, a) != Key(s, t', a') {
      k :| 1 <= k <= s.trials && Key(s, t', a') + "__" + Padded(k) + "__" <= Key(s, t, a) + "__";
    }
    id := SomeShortId();
    c, other := Coordinate(t, a, 1), Coordinate(t', a', k);
    MatchShape(s, c, id, other);
  }

  lemma AmbiguousConfuses(s: Sweep) returns (c: Coordinate, id: string, other: Coordinate)
    requires s.trials > 0 && !Unambiguous(s)
    ensures Valid(s, c) && Valid(s, other) && c != other && ShortId(id)
    ensures Matches(TrialPrefix(s, other), TrialName(s, c, id))
  {
    var t: nat, a: nat, t': nat, a': nat :|
      t < |s.tasks| && a < |s.agents| && t' < |s.tasks| && a' < |s.agents| && (t != t' || a != a')
      && !Distinguished(Key(s, t, a), Key(s, t', a'), s.trials);
    c, id, other := Confusion(s, t, a, t', a');
  }

  lemma AmbiguousBreaksResume(s: Sweep, t: nat, a: nat, t': nat, a': nat)
    requires s.trials > 0 && t < |s.tasks| && a < |s.agents| && t' < |s.tasks| && a' < |s.agents|
    requires (t != t' || a != a') && !Distinguished(Key(s, t, a), Key(s, t', a'), s.trials)
    ensures !ResumeExact(s)
  {
    var c, id, other := Confusion(s, t, a, t', a');
    NameOfTrial(s, c, id);
    ConfusionBreaksResume(s, c, TrialName(s, c, id), other);
  }

  /** Main result: resuming is exact in every job directory if and only if the
      sweep's keys are unambiguous. */
  lemma ResumeExactCondition(s: Sweep)
    requires s.trials > 0
    ensures ResumeExact(s) <==> Unambiguous(s)
  {
    if Unambiguous(s) {
      forall directory, done, c | Records(s, directory, done) && Valid(s, c)
        ensures Completed(directory, TrialPrefix(s, c)) <==> c in done
      {
        UnambiguousIsExact(s, directory, done, c);
      }
    } else {
      var c, id, other := AmbiguousConfuses(s);
      NameOfTrial(s, c, id);
      ConfusionBreaksResume(s, c, TrialName(s, c, id), other);
    }
  }

  // ------------------------------------------------------------------
  // Names that make a sweep unambiguous
  // ------------------------------------------------------------------

  predicate Separator(s: string, i: int) {
    0 <= i && i + 1 < |s| && s[i] == '_' && s[i + 1] == '_'
  }

  predicate NoSeparator(s: string) {
    forall i :: 0 <= i < |s| ==> !Separator(s, i)
  }

  predicate Alphanumeric(c: char) {
    'a' <= c <= 'z' || 'A' <= c <= 'Z' || '0' <= c <= '9'
  }

  /** The identities `AgentId::new` accepts. */
  predicate AgentId(id: string) {
    && id != "" && Alphanumeric(id[0])
    && forall i :: 0 <= i < |id| ==> Alphanumeric(id[i]) || id[i] in ['.', '_', '-']
  }

  ghost predicate ClearNames(s: Sweep) {
    && (forall a :: 0 <= a < |s.agents| ==> AgentId(s.agents[a]) && NoSeparator(s.agents[a]))
    && (forall t :: 0 <= t < |s.tasks| ==> NoSeparator(ShortName(s.tasks[t].name)))
    && (forall a, b :: 0 <= a < b < |s.agents| ==> s.agents[a] != s.agents[b])
    && (forall t, u :: 0 <= t < u < |s.tasks| ==> ShortName(s.tasks[t].name) != ShortName(s.tasks[u].name))
  }

  /** Where `__` can lie in `short__agent__`. */
  lemma SeparatorPlaces(short: string, agent: string, i: nat)
    requires NoSeparator(short) && NoSeparator(agent) && agent != "" && agent[0] != '_'
    requires Separator(short + "__" + agent + "__", i)
    ensures |short| - 1 <= i <= |short| || |short| + |agent| + 1 <= i <= |short| + |agent| + 2
  {
    var text := short + "__" + agent + "__";
    assert text[|short| + 2] == agent[0];
    assert i + 1 < |short| ==> text[i] == short[i] && text[i + 1] == short[i + 1];
    assert i + 1 < |short| ==> !Separator(short, i);
    var j := i - |short| - 2;
    assert 0 <= j && j + 1 < |agent| ==> text[i] == agent[j] && text[i + 1] == agent[j + 1];
    assert 0 <= j && j + 1 < |agent| ==> !Separator(agent, j);
  }

  lemma SeparatorsIn(short: string, agent: string, padded: string)
    ensures Separator(short + "__" + agent + "__" + padded + "__", |short|)
    ensures Separator(short + "__" + agent + "__" + padded + "__", |short| + 2 + |agent|)
    ensures Separator(short + "__" + agent + "__" + padded + "__", |short| + 4 + |agent| + |padded|)
  {
  }

  lemma SeparatorOfPrefix(whole: string, text: string, i: nat)
    requires whole <= text && Separator(whole, i)
    ensures Separator(text, i)
  {
  }

  /** A trial prefix holds three separators, a key and its separator only two. */
  lemma NoLongerKey(short: string, agent: string, short': string, agent': string, padded: string)
    requires NoSeparator(short) && NoSeparator(agent) && agent != "" && agent[0] != '_'
    requires agent' != "" && padded != ""
    ensures !(short' + "__" + agent' + "__" + padded + "__" <= short + "__" + agent + "__")
  {
    var whole, text := short' + "__" + agent' + "__" + padded + "__", short + "__" + agent + "__";
    if whole <= text {
      SeparatorsIn(short', agent', padded);
      SeparatorOfPrefix(whole, text, |short'|);
      SeparatorOfPrefix(whole, text, |short'| + 2 + |agent'|);
      SeparatorOfPrefix(whole, text, |short'| + 4 + |agent'| + |padded|);
      SeparatorPlaces(short, agent, |short'|);
      SeparatorPlaces(short, agent, |short'| + 2 + |agent'|);
      assert false;
    }
  }

  lemma KeyNoShorter(short: string, agent: string, short': string, agent': string)
    requires NoSeparator(short) && NoSeparator(agent) && agent != "" && agent[0] != '_'
    requires NoSeparator(short') && NoSeparator(agent') && agent' != "" && agent'[0] != '_'
    requires short + "__" + agent == short' + "__" + agent'
    ensures |short'| <= |short|
  {
    var text := short' + "__" + agent' + "__";
    assert short + "__" + agent + "__" == text;
    assert Separator(text, |short'|);
    SeparatorPlaces(short, agent, |short'|);
  }

  /** A clear key names one task and one agent. */
  lemma KeySplits(short: string, agent: string, short': string, agent': string)
    requires NoSeparator(short) && NoSeparator(agent) && agent != "" && agent[0] != '_'
    requires NoSeparator(short') && NoSeparator(agent') && agent' != "" && agent'[0] != '_'
    requires short + "__" + agent == short' + "__" + agent'
    ensures short == short' && agent == agent'
  {
    KeyNoShorter(short, agent, short', agent');
    KeyNoShorter(short', agent', short, agent);
    var l, r := short + "__" + agent, short' + "__" + agent';
    assert short == l[..|short|] && short' == r[..|short'|];
    assert agent == l[|short| + 2..] && agent' == r[|short'| + 2..];
  }

  lemma ClearKeys(s: Sweep, t: nat, a: nat, t': nat, a': nat)
    requires ClearNames(s) && t < |s.tasks| && a < |s.agents| && t' < |s.tasks| && a' < |s.agents|
    requires t != t' || a != a'
    ensures Distinguished(Key(s, t, a), Key(s, t', a'), s.trials)
  {
    var short, short' := ShortName(s.tasks[t].name), ShortName(s.tasks[t'].name);
    var agent, agent' := s.agents[a], s.agents[a'];
    assert AgentId(agent) && AgentId(agent');
    if Key(s, t, a) == Key(s, t', a') {
      KeySplits(short, agent, short', agent');
    }
    forall k: nat | 1 <= k <= s.trials
      ensures !(Key(s, t', a') + "__" + Padded(k) + "__" <= Key(s, t, a) + "__")
    {
      PaddedDigits(k);
      NoLongerKey(short, agent, short', agent', Padded(k));
    }
  }

  /** When no short task name and no agent identity holds `__` and each is used
      once, resuming is exact, trials past 999 included. */
  lemma ClearNamesResumeExactly(s: Sweep)
    requires s.trials > 0 && ClearNames(s)
    ensures ResumeExact(s)
  {
    forall t: nat, a: nat, t': nat, a': nat
      | t < |s.tasks| && a < |s.agents| && t' < |s.tasks| && a' < |s.agents| && (t != t' || a != a')
      ensures Distinguished(Key(s, t, a), Key(s, t', a'), s.trials)
    {
      ClearKeys(s, t, a, t', a');
    }
    ResumeExactCondition(s);
  }

  /** Two tasks with one short name: the result of one hides the other. */
  lemma SharedShortName(s: Sweep, t: nat, u: nat)
    requires s.trials > 0 && s.agents != [] && t < u < |s.tasks|
    requires ShortName(s.tasks[t].name) == ShortName(s.tasks[u].name)
    ensures !ResumeExact(s)
  {
    assert !Distinguished(Key(s, t, 0), Key(s, u, 0), s.trials);
    AmbiguousBreaksResume(s, t, 0, u, 0);
  }

  /** One agent's identity continues another's trial prefix: each of its results
      is taken for that trial of the other. */
  lemma ContinuedAgent(s: Sweep, t: nat, a: nat, b: nat, k: nat, rest: string)
    requires t < |s.tasks| && a < |s.agents| && b < |s.agents| && 1 <= k <= s.trials
    requires s.agents[a] == s.agents[b] + "__" + Padded(k) + "__" + rest
    ensures !ResumeExact(s)
  {
    var short := ShortName(s.tasks[t].name);
    var prefix := Key(s, t, b) + "__" + Padded(k) + "__";
    assert Key(s, t, a) + "__" == prefix + (rest + "__");
    assert !Distinguished(Key(s, t, a), Key(s, t, b), s.trials);
    AmbiguousBreaksResume(s, t, a, t, b);
  }

  /** `AgentId::new` accepts such identities. */
  lemma ContinuedAgentAccepted()
    ensures AgentId("x") && AgentId("x" + "__" + Padded(1) + "__" + "y")
  {
  }

  // ------------------------------------------------------------------
  // Building and planning a sweep
  // ------------------------------------------------------------------

  datatype SweepError =
    | NoTasks
    | NoAgents
    | ZeroTrials
    | DuplicateTask(root: string)
    | DuplicateAgent(id: string)
    | TooManyAttempts

  function Roots(tasks: seq<Task>): seq<string> {
    seq(|tasks|, i requires 0 <= i < |tasks| => tasks[i].root)
  }

  /** The first name that repeats an earlier one. */
  predicate FirstRepeat(names: seq<string>, name: string) {
    exists i :: 0 <= i < |names| && names[i] == name && NoRepeats(names[..i]) && name in names[..i]
  }

  method FindRepeat(names: seq<string>) returns (repeated: Option<string>)
    ensures repeated.None? <==> NoRepeats(names)
    ensures repeated.Some? ==> FirstRepeat(names, repeated.value)
  {
    for i := 0 to |names|
      invariant NoRepeats(names[..i])
    {
      if names[i] in names[..i] {
        assert FirstRepeat(names, names[i]);
        return Some(names[i]);
      }
      assert names[..i + 1] == names[..i] + [names[i]];
    }
    assert names[..|names|] == names;
    return None;
  }

  predicate WellFormed(s: Sweep) {
    && s.tasks != [] && s.agents != [] && s.trials > 0
    && NoRepeats(Roots(s.tasks)) && NoRepeats(s.agents)
    && |s.tasks| * |s.agents| * s.trials < U64
  }

  predicate Counted(tasks: seq<Task>, agents: seq<string>, trials: nat) {
    tasks != [] && agents != [] && trials > 0
  }

  /** `SweepBuilder::build`; `trials` fits 16 bits, so no sweep of fewer than
      2^48 pairs is refused for its size. */
  method Build(tasks: seq<Task>, agents: seq<string>, trials: nat) returns (r: Result<(Sweep, nat), SweepError>)
    ensures r.Ok? <==> WellFormed(Sweep(tasks, agents, trials))
    ensures r.Ok? ==> r.value == (Sweep(tasks, agents, trials), |Attempts(Sweep(tasks, agents, trials))|)
    ensures r == Err(NoTasks) <==> tasks == []
    ensures r == Err(NoAgents) <==> tasks != [] && agents == []
    ensures r == Err(ZeroTrials) <==> tasks != [] && agents != [] && trials == 0
    ensures r.Err? && r.error.DuplicateTask? <==> Counted(tasks, agents, trials) && !NoRepeats(Roots(tasks))
    ensures r.Err? && r.error.DuplicateTask? ==> FirstRepeat(Roots(tasks), r.error.root)
    ensures r.Err? && r.error.DuplicateAgent? <==>
      Counted(tasks, agents, trials) && NoRepeats(Roots(tasks)) && !NoRepeats(agents)
    ensures r.Err? && r.error.DuplicateAgent? ==> FirstRepeat(agents, r.error.id)
    ensures r == Err(TooManyAttempts) <==>
      Counted(tasks, agents, trials) && NoRepeats(Roots(tasks)) && NoRepeats(agents)
      && |Attempts(Sweep(tasks, agents, trials))| >= U64
  {
    if tasks == [] {
      return Err(NoTasks);
    }
    if agents == [] {
      return Err(NoAgents);
    }
    if trials == 0 {
      return Err(ZeroTrials);
    }
    var task := FindRepeat(Roots(tasks));
    if task.Some? {
      return Err(DuplicateTask(task.value));
    }
    var agent := FindRepeat(agents);
    if agent.Some? {
      return Err(DuplicateAgent(agent.value));
    }
    AttemptsExact(Sweep(tasks, agents, trials));
    var pairs := |tasks| * |agents|;
    PairsBelowAll(pairs, trials);
    ghost var all := trials * pairs;
    if pairs >= U64 || pairs * trials >= U64 {
      return Err(TooManyAttempts);
    }
    return Ok((Sweep(tasks, agents, trials), pairs * trials));
  }

  lemma PairsBelowAll(pairs: nat, trials: nat)
    requires trials > 0
    ensures pairs <= pairs * trials && pairs * trials == trials * pairs
  {
  }

  /** The manifest that binds a job to one sweep. */
  datatype RunManifest = RunManifest(roots: seq<string>, agents: seq<string>, trials: nat)

  function Manifest(s: Sweep): RunManifest {
    RunManifest(Roots(s.tasks), s.agents, s.trials)
  }

  /** `RunManifest::eq`: roots are compared after sorting. */
  predicate SameRun(a: RunManifest, b: RunManifest) {
    a.trials == b.trials && a.agents == b.agents && |a.roots| == |b.roots|
    && Sort(Before, a.roots) == Sort(Before, b.roots)
  }

  lemma DistinctComparable(names: seq<string>)
    requires NoRepeats(names)
    ensures Comparable(Before, names)
  {
    forall i, j | 0 <= i < j < |names|
      ensures Before(names[i], names[j]) || Before(names[j], names[i])
    {
      BeforeTotal(names[i], names[j]);
    }
  }

  lemma SetSize(names: seq<string>)
    requires NoRepeats(names)
    ensures |set n | n in names| == |names|
  {
    if names != [] {
      var init, last := names[..|names| - 1], names[|names| - 1];
      SetSize(init);
      assert names == init + [last];
      assert (set n | n in names) == (set n | n in init) + {last};
    }
  }

  /** Two built sweeps are the same run whatever the order of their tasks, and
      only if they have the same tasks, agents and trials. */
  lemma SameRunExact(s: Sweep, s': Sweep)
    requires WellFormed(s) && WellFormed(s')
    ensures SameRun(Manifest(s), Manifest(s')) <==>
      s.trials == s'.trials && s.agents == s'.agents && SameElements(Roots(s.tasks), Roots(s'.tasks))
  {
    var a, b := Roots(s.tasks), Roots(s'.tasks);
    BeforeIsOrder();
    DistinctComparable(a);
    DistinctComparable(b);
    SortAscends(Before, a);
    SortAscends(Before, b);
    if SameElements(a, b) {
      SortIgnoresOrder(Before, a, b);
      SetSize(a);
      SetSize(b);
      assert (set n | n in a) == (set n | n in b);
    }
  }

  /** A job directory's `run.json`. */
  class JobRun {
    var run: Option<RunManifest>

    constructor ()
      ensures run == None
    {
      run := None;
    }

    /** `bind_run`: the first run to bind stays; later ones must be the same run. */
    method Bind(manifest: RunManifest) returns (bound: bool)
      modifies this
      ensures bound <==> old(run).None? || SameRun(old(run).value, manifest)
      ensures run == if old(run).None? then Some(manifest) else old(run)
    {
      if run.Some? {
        return SameRun(run.value, manifest);
      }
      run := Some(manifest);
      return true;
    }
  }

  /** So whatever binds a job in turn is the same run as whatever else does. */
  lemma BoundRunsAgree(first: RunManifest, a: RunManifest, b: RunManifest)
    requires SameRun(first, a) && SameRun(first, b)
    ensures SameRun(a, b) && SameRun(b, a) && a.trials * |a.agents| == b.trials * |b.agents|
  {
  }

  ghost predicate AllValid(s: Sweep, attempts: seq<Coordinate>) {
    forall i :: 0 <= i < |attempts| ==> Valid(s, attempts[i])
  }

  /** Of the first `n` attempts those still to run, in expansion order. */
  ghost function Pending(s: Sweep, directory: seq<DirEntry>, attempts: seq<Coordinate>, n: nat): seq<Coordinate>
    requires AllValid(s, attempts) && n <= |attempts|
  {
    if n == 0 then []
    else if Completed(directory, TrialPrefix(s, attempts[n - 1])) then Pending(s, directory, attempts, n - 1)
    else Pending(s, directory, attempts, n - 1) + [attempts[n - 1]]
  }

  lemma {:induction false} InPending(s: Sweep, directory: seq<DirEntry>, attempts: seq<Coordinate>, n: nat,
      c: Coordinate)
    requires AllValid(s, attempts) && n <= |attempts|
    ensures c in Pending(s, directory, attempts, n) <==>
      c in attempts[..n] && !Completed(directory, TrialPrefix(s, c))
  {
    hide Completed, TrialPrefix, Valid;
    if n > 0 {
      InPending(s, directory, attempts, n - 1, c);
      assert attempts[..n] == attempts[..n - 1] + [attempts[n - 1]];
    }
  }

  lemma {:induction false} PendingAscends(s: Sweep, directory: seq<DirEntry>, attempts: seq<Coordinate>, n: nat)
    requires AllValid(s, attempts) && n <= |attempts| && Ascending(Earlier, attempts)
    ensures Ascending(Earlier, Pending(s, directory, attempts, n))
  {
    hide Completed, TrialPrefix, Earlier, Valid;
    if n > 0 {
      PendingAscends(s, directory, attempts, n - 1);
      var before := Pending(s, directory, attempts, n - 1);
      forall x | x in before
        ensures Earlier(x, attempts[n - 1])
      {
        PendingEarlier(s, directory, attempts, n - 1, x);
      }
      AppendAscends(Earlier, before, [attempts[n - 1]]);
    }
  }

  lemma PendingEarlier(s: Sweep, directory: seq<DirEntry>, attempts: seq<Coordinate>, n: nat, x: Coordinate)
    requires AllValid(s, attempts) && n < |attempts| && Ascending(Earlier, attempts)
    requires x in Pending(s, directory, attempts, n)
    ensures Earlier(x, attempts[n])
  {
    InPending(s, directory, attempts, n, x);
  }

  lemma PendingExact(s: Sweep, directory: seq<DirEntry>)
    requires AllValid(s, Attempts(s))
    ensures var inputs := Pending(s, directory, Attempts(s), |Attempts(s)|);
      && Ascending(Earlier, inputs)
      && (forall c :: c in inputs <==> Valid(s, c) && !Completed(directory, TrialPrefix(s, c)))
  {
    var attempts := Attempts(s);
    AttemptsAscend(s);
    PendingAscends(s, directory, attempts, |attempts|);
    assert attempts[..|attempts|] == attempts;
    forall c
      ensures c in Pending(s, directory, attempts, |attempts|) <==>
        Valid(s, c) && !Completed(directory, TrialPrefix(s, c))
    {
      InAttempts(c, s);
      InPending(s, directory, attempts, |attempts|, c);
    }
  }

  lemma AttemptsValid(s: Sweep)
    ensures AllValid(s, Attempts(s))
  {
    AttemptsExact(s);
  }

  /** The planning loops of `sweep` and `remaining_attempts`. */
  method Plan(s: Sweep, directory: seq<DirEntry>) returns (inputs: seq<Coordinate>, skipped: nat)
    ensures forall c :: c in inputs <==> Valid(s, c) && !Completed(directory, TrialPrefix(s, c))
    ensures Ascending(Earlier, inputs)
    ensures |inputs| + skipped == s.trials * (|s.tasks| * |s.agents|)
  {
    var attempts := Attempts(s);
    AttemptsValid(s);
    inputs, skipped := [], 0;
    for i := 0 to |attempts|
      invariant inputs == Pending(s, directory, attempts, i) && |inputs| + skipped == i
    {
      var completed := CompletedAttempt(directory, TrialPrefix(s, attempts[i]));
      if completed {
        skipped := skipped + 1;
        continue;
      }
      inputs := inputs + [attempts[i]];
    }
    PendingExact(s, directory);
    AttemptsSize(s);
  }

  // ------------------------------------------------------------------
  // A sweep over several sessions
  // ------------------------------------------------------------------

  /** A job over its sessions: its directory, the results recorded so far, and
      what the current session has planned and not ended. */
  datatype Progress = Progress(directory: seq<DirEntry>, done: seq<Coordinate>, planned: set<Coordinate>)

  /** A session plans; an attempt leaves a directory with a result or, when it is
      interrupted, without one. */
  datatype Event =
    | Restart
    | Finish(c: Coordinate, id: string)
    | Abandon(c: Coordinate, id: string)

  const START := Progress([], [], {})

  predicate Enabled(s: Sweep, p: Progress, e: Event) {
    e.Restart? || (e.c in p.planned && Valid(s, e.c) && ShortId(e.id))
  }

  function Planned(s: Sweep, directory: seq<DirEntry>): set<Coordinate> {
    set c | c in Attempts(s) && Valid(s, c) && !Completed(directory, TrialPrefix(s, c))
  }

  function Entry(s: Sweep, c: Coordinate, id: string, hasResult: bool): DirEntry
    requires Valid(s, c)
  {
    DirEntry(Some(TrialName(s, c, id)), true, hasResult)
  }

  function Apply(s: Sweep, p: Progress, e: Event): Progress
    requires Enabled(s, p, e)
  {
    match e
    case Restart => p.(planned := Planned(s, p.directory))
    case Finish(c, id) => Progress(p.directory + [Entry(s, c, id, true)], p.done + [c], p.planned - {c})
    case Abandon(c, id) => Progress(p.directory + [Entry(s, c, id, false)], p.done, p.planned - {c})
  }

  ghost predicate IsRun(s: Sweep, p: Progress, events: seq<Event>, p': Progress)
    decreases |events|
  {
    if events == [] then p' == p
    else Enabled(s, p, events[0]) && IsRun(s, Apply(s, p, events[0]), events[1..], p')
  }

  function Recorded(done: seq<Coordinate>): set<Coordinate> {
    set c | c in done
  }

  function ResultCount(directory: seq<DirEntry>): nat {
    if directory == [] then 0
    else
      var last := directory[|directory| - 1];
      ResultCount(directory[..|directory| - 1]) + if last.isDirectory && last.hasResult then 1 else 0
  }

  /** `completed_trial_count`: whatever the directories are named. */
  method CompletedTrialCount(directory: seq<DirEntry>) returns (completed: nat)
    ensures completed == ResultCount(directory)
  {
    completed := 0;
    for i := 0 to |directory|
      invariant completed == ResultCount(directory[..i])
    {
      assert directory[..i + 1][..i] == directory[..i];
      if directory[i].isDirectory && directory[i].hasResult {
        completed := completed + 1;
      }
    }
    assert directory[..|directory|] == directory;
  }

  /** Only a directory with a result completes an attempt or counts; and no other entry
      makes a difference. */
  lemma ResultsCount(directory: seq<DirEntry>, e: DirEntry, prefix: string)
    ensures ResultCount(directory + [e])
         == ResultCount(directory) + if e.isDirectory && e.hasResult then 1 else 0
    ensures Completed(directory + [e], prefix) <==>
      || Completed(directory, prefix)
      || (e.isDirectory && e.hasResult && e.name.Some? && prefix + "__" <= e.name.value)
  {
    hide Matches;
    var longer := directory + [e];
    assert longer[..|directory|] == directory && longer[|directory|] == e;
    assert Durable(e) && Matches(prefix, e.name.value) <==>
      e.isDirectory && e.hasResult && e.name.Some? && prefix + "__" <= e.name.value by {
      if e.name.Some? {
        MatchIsPrefix(prefix, e.name.value);
      }
    }
    if i :| 0 <= i < |directory| && Durable(directory[i]) && Matches(prefix, directory[i].name.value) {
      assert longer[i] == directory[i];
    }
  }

  ghost predicate Inv(s: Sweep, p: Progress) {
    && Records(s, p.directory, Recorded(p.done))
    && ResultCount(p.directory) == |p.done|
    && (forall i, j :: 0 <= i < j < |p.done| ==> p.done[i] != p.done[j])
    && (forall c :: c in p.planned ==> Valid(s, c) && c !in p.done)
  }

  lemma PresentAppend(s: Sweep, directory: seq<DirEntry>, done: set<Coordinate>, e: DirEntry)
    requires AllPresent(s, directory, done)
    ensures AllPresent(s, directory + [e], done)
  {
    forall c | c in done
      ensures HasResult(s, directory + [e], c)
    {
      var i :| 0 <= i < |directory| && Durable(directory[i]) && NameOf(s, c, directory[i].name.value);
      assert (directory + [e])[i] == directory[i];
    }
  }

  lemma ResultPresent(s: Sweep, directory: seq<DirEntry>, c: Coordinate, e: DirEntry)
    requires Valid(s, c) && Durable(e) && NameOf(s, c, e.name.value)
    ensures HasResult(s, directory + [e], c)
  {
    assert (directory + [e])[|directory|] == e;
  }

  lemma OwnedAppend(s: Sweep, directory: seq<DirEntry>, done: set<Coordinate>, more: set<Coordinate>, e: DirEntry)
    requires AllOwned(s, directory, done)
    requires Durable(e) ==> OwnedBy(s, done + more, e.name.value)
    ensures AllOwned(s, directory + [e], done + more)
  {
    forall i | 0 <= i < |directory + [e]| && Durable((directory + [e])[i])
      ensures OwnedBy(s, done + more, (directory + [e])[i].name.value)
    {
      if i < |directory| {
        var name := directory[i].name.value;
        assert OwnedBy(s, done, name);
        var c :| c in done && Valid(s, c) && NameOf(s, c, name);
        assert c in done + more;
      }
    }
  }

  lemma ResultRecorded(s: Sweep, directory: seq<DirEntry>, done: set<Coordinate>, c: Coordinate, e: DirEntry)
    requires Records(s, directory, done) && Valid(s, c) && Durable(e) && NameOf(s, c, e.name.value)
    ensures Records(s, directory + [e], done + {c})
  {
    PresentAppend(s, directory, done, e);
    ResultPresent(s, directory, c, e);
    assert c in done + {c};
    OwnedAppend(s, directory, done, {c}, e);
  }

  lemma NothingRecorded(s: Sweep, directory: seq<DirEntry>, done: set<Coordinate>, e: DirEntry)
    requires Records(s, directory, done) && !Durable(e)
    ensures Records(s, directory + [e], done)
  {
    PresentAppend(s, directory, done, e);
    OwnedAppend(s, directory, done, {}, e);
    assert done + {} == done;
  }

  lemma PlannedExact(s: Sweep, directory: seq<DirEntry>, done: set<Coordinate>, c: Coordinate)
    requires Unambiguous(s) && Records(s, directory, done)
    ensures c in Planned(s, directory) <==> Valid(s, c) && c !in done
  {
    InAttempts(c, s);
    if Valid(s, c) {
      UnambiguousIsExact(s, directory, done, c);
    }
  }

  lemma StepKeepsRecords(s: Sweep, p: Progress, e: Event)
    requires Records(s, p.directory, Recorded(p.done)) && Enabled(s, p, e)
    ensures Records(s, Apply(s, p, e).directory, Recorded(Apply(s, p, e).done))
  {
    match e
    case Restart =>
    case Finish(c, id) =>
      NameOfTrial(s, c, id);
      ResultRecorded(s, p.directory, Recorded(p.done), c, Entry(s, c, id, true));
      assert Recorded(p.done + [c]) == Recorded(p.done) + {c};
    case Abandon(c, id) =>
      NothingRecorded(s, p.directory, Recorded(p.done), Entry(s, c, id, false));
  }

  lemma StepKeepsCount(s: Sweep, p: Progress, e: Event)
    requires ResultCount(p.directory) == |p.done| && Enabled(s, p, e)
    ensures ResultCount(Apply(s, p, e).directory) == |Apply(s, p, e).done|
  {
  }

  /** An attempt's own directory always matches, so what is recorded is not planned. */
  lemma RecordedIsCompleted(s: Sweep, directory: seq<DirEntry>, done: set<Coordinate>, c: Coordinate)
    requires Records(s, directory, done) && c in done
    ensures Valid(s, c) && Completed(directory, TrialPrefix(s, c))
  {
    var i :| 0 <= i < |directory| && Durable(directory[i]) && NameOf(s, c, directory[i].name.value);
    var name := directory[i].name.value;
    MatchShape(s, c, name[|name| - 8..], c);
  }

  lemma StepKeepsInv(s: Sweep, p: Progress, e: Event)
    requires Inv(s, p) && Enabled(s, p, e)
    ensures Inv(s, Apply(s, p, e))
  {
    hide Records, ResultCount, Completed;
    StepKeepsRecords(s, p, e);
    StepKeepsCount(s, p, e);
    if e == Restart {
      forall c | c in Planned(s, p.directory)
        ensures Valid(s, c) && c !in p.done
      {
        if c in p.done {
          RecordedIsCompleted(s, p.directory, Recorded(p.done), c);
        }
      }
    }
  }

  lemma {:induction false} RunKeepsInv(s: Sweep, p: Progress, events: seq<Event>, p': Progress)
    requires Inv(s, p) && IsRun(s, p, events, p')
    ensures Inv(s, p')
    decreases |events|
  {
    hide Inv, Apply, Enabled;
    if events != [] {
      StepKeepsInv(s, p, events[0]);
      RunKeepsInv(s, Apply(s, p, events[0]), events[1..], p');
    }
  }

  /** Main result: over any number of interrupted sessions of any sweep each
      coordinate gets at most one result, and none that has one is planned again. */
  lemma NoResultRepeated(s: Sweep, events: seq<Event>, p: Progress)
    requires IsRun(s, START, events, p)
    ensures forall i, j :: 0 <= i < j < |p.done| ==> p.done[i] != p.done[j]
    ensures forall c :: c in Planned(s, p.directory) ==> Valid(s, c) && c !in p.done
  {
    RunKeepsInv(s, START, events, p);
    StepKeepsInv(s, p, Restart);
  }

  ghost predicate PlansExactly(s: Sweep, p: Progress) {
    forall c :: c in Planned(s, p.directory) <==> Valid(s, c) && c !in p.done
  }

  ghost predicate AlwaysPlansExactly(s: Sweep) {
    forall events, p :: IsRun(s, START, events, p) ==> PlansExactly(s, p)
  }

  lemma UnambiguousPlans(s: Sweep, events: seq<Event>, p: Progress)
    requires Unambiguous(s) && IsRun(s, START, events, p)
    ensures PlansExactly(s, p)
  {
    RunKeepsInv(s, START, events, p);
    forall c
      ensures c in Planned(s, p.directory) <==> Valid(s, c) && c !in p.done
    {
      PlannedExact(s, p.directory, Recorded(p.done), c);
    }
  }

  /** A new job in which `c` has run and nothing else. */
  function FirstResult(s: Sweep, c: Coordinate, id: string): Progress
    requires Valid(s, c)
  {
    Progress([Entry(s, c, id, true)], [c], Planned(s, []) - {c})
  }

  lemma FirstResultReached(s: Sweep, c: Coordinate, id: string)
    requires Valid(s, c) && ShortId(id)
    ensures IsRun(s, START, [Restart, Finish(c, id)], FirstResult(s, c, id))
  {
    hide TrialPrefix, TrialName, Attempts;
    InAttempts(c, s);
    assert c in Planned(s, []);
    var events, planned := [Restart, Finish(c, id)], Progress([], [], Planned(s, []));
    assert events[1..] == [Finish(c, id)] && [Finish(c, id)][1..] == [];
    assert Apply(s, START, Restart) == planned;
    assert Apply(s, planned, Finish(c, id)) == FirstResult(s, c, id);
    assert IsRun(s, planned, [Finish(c, id)], FirstResult(s, c, id));
  }

  lemma TakenForAnother(s: Sweep, c: Coordinate, id: string, other: Coordinate)
    requires Valid(s, c) && Valid(s, other) && Matches(TrialPrefix(s, other), TrialName(s, c, id))
    ensures Completed(FirstResult(s, c, id).directory, TrialPrefix(s, other))
    ensures other !in Planned(s, FirstResult(s, c, id).directory)
  {
    hide TrialPrefix, TrialName, Attempts, Matches;
    var directory := FirstResult(s, c, id).directory;
    assert Durable(directory[0]) && Matches(TrialPrefix(s, other), directory[0].name.value);
  }

  /** Main result: the sessions of a sweep always plan exactly what has no result if
      and only if its keys are unambiguous; otherwise one result is enough. */
  lemma PlanningExactCondition(s: Sweep)
    requires s.trials > 0
    ensures AlwaysPlansExactly(s) <==> Unambiguous(s)
  {
    hide Unambiguous, IsRun, Planned, Completed, TrialPrefix, TrialName;
    if Unambiguous(s) {
      forall events, p | IsRun(s, START, events, p)
        ensures PlansExactly(s, p)
      {
        UnambiguousPlans(s, events, p);
      }
    } else {
      var c, id, other := AmbiguousConfuses(s);
      FirstResultReached(s, c, id);
      TakenForAnother(s, c, id, other);
      assert !PlansExactly(s, FirstResult(s, c, id));
    }
  }

  lemma DistinctSize(cs: seq<Coordinate>)
    requires NoRepeats(cs)
    ensures |Recorded(cs)| == |cs|
  {
    if cs != [] {
      var init, last := cs[..|cs| - 1], cs[|cs| - 1];
      DistinctSize(init);
      assert cs == init + [last];
      assert Recorded(cs) == Recorded(init) + {last};
    }
  }

  lemma AttemptsDistinct(s: Sweep)
    ensures NoRepeats(Attempts(s))
  {
    AttemptsAscend(s);
    var attempts := Attempts(s);
    forall i, j | 0 <= i < j < |attempts|
      ensures attempts[i] != attempts[j]
    {
      assert Earlier(attempts[i], attempts[j]);
    }
  }

  function Size(s: Sweep): nat {
    s.trials * (|s.tasks| * |s.agents|)
  }

  lemma CoordinatesCounted(s: Sweep)
    ensures |Recorded(Attempts(s))| == Size(s)
    ensures forall c :: c in Recorded(Attempts(s)) <==> Valid(s, c)
  {
    hide Attempts;
    AttemptsSize(s);
    AttemptsDistinct(s);
    DistinctSize(Attempts(s));
    forall c
      ensures c in Recorded(Attempts(s)) <==> Valid(s, c)
    {
      InAttempts(c, s);
    }
  }

  /** Fewer results than attempts means that some attempt has none. */
  lemma FewerThanAll(s: Sweep, p: Progress)
    requires Inv(s, p)
    ensures ResultCount(p.directory) < Size(s) <==> exists c :: Valid(s, c) && c !in p.done
  {
    hide Attempts, ResultCount, Valid;
    var all, done := Recorded(Attempts(s)), Recorded(p.done);
    CoordinatesCounted(s);
    DistinctSize(p.done);
    forall c | c in done
      ensures c in all
    {
      RecordedIsCompleted(s, p.directory, done, c);
    }
    SubsetSize(done, all);
    if done != all {
      var c :| c in all && c !in done;
    }
  }

  /** A directory under the jobs directory; None marks a file that cannot be read. */
  datatype Retained = Retained(startedAt: Option<int>, run: Option<RunManifest>, entries: Option<seq<DirEntry>>,
                               locked: bool)

  function AttemptCount(run: RunManifest): nat {
    |run.roots| * |run.agents| * run.trials
  }

  predicate Readable(j: Retained) {
    j.startedAt.Some? && j.run.Some? && j.entries.Some?
  }

  predicate Candidate(j: Retained, run: RunManifest) {
    Readable(j) && SameRun(j.run.value, run) && ResultCount(j.entries.value) < AttemptCount(run)
  }

  /** What a sweep's sessions leave behind, read back by a later call. */
  function RetainedJob(s: Sweep, p: Progress, startedAt: int, locked: bool): Retained {
    Retained(Some(startedAt), Some(Manifest(s)), Some(p.directory), locked)
  }

  /** A retained job of a sweep is a candidate exactly while some coordinate has no result. */
  lemma CandidateExactly(s: Sweep, events: seq<Event>, p: Progress, startedAt: int, locked: bool)
    requires IsRun(s, START, events, p)
    ensures Candidate(RetainedJob(s, p, startedAt, locked), Manifest(s)) <==> exists c :: Valid(s, c) && c !in p.done
  {
    hide IsRun, Inv, Valid, ResultCount;
    StartInv(s);
    RunKeepsInv(s, START, events, p);
    FewerThanAll(s, p);
    CountsAttempts(s);
  }

  /** A manifest counts every attempt of its sweep. */
  lemma CountsAttempts(s: Sweep)
    ensures AttemptCount(Manifest(s)) == Size(s) == |Attempts(s)|
  {
    hide Attempts;
    AttemptsSize(s);
  }

  /** A later call takes the job up exactly when a session would find an attempt to run. */
  ghost predicate UnfinishedExact(s: Sweep, p: Progress) {
    Candidate(RetainedJob(s, p, 0, false), Manifest(s)) <==> Planned(s, p.directory) != {}
  }

  lemma UnambiguousUnfinished(s: Sweep, events: seq<Event>, p: Progress)
    requires Unambiguous(s) && IsRun(s, START, events, p)
    ensures UnfinishedExact(s, p)
  {
    RunKeepsInv(s, START, events, p);
    hide IsRun, Unambiguous, Planned, Candidate, Valid, Inv;
    UnambiguousPlans(s, events, p);
    CandidateExactly(s, events, p, 0, false);
    if Planned(s, p.directory) != {} {
      var c :| c in Planned(s, p.directory);
    }
  }

  lemma {:induction false} RunAppend(s: Sweep, p: Progress, first: seq<Event>, q: Progress,
      rest: seq<Event>, r: Progress)
    requires IsRun(s, p, first, q) && IsRun(s, q, rest, r)
    ensures IsRun(s, p, first + rest, r)
    decreases |first|
  {
    hide Apply, Enabled;
    if first == [] {
      assert first + rest == rest;
    } else {
      RunAppend(s, Apply(s, p, first[0]), first[1..], q, rest, r);
      assert (first + rest)[0] == first[0] && (first + rest)[1..] == first[1..] + rest;
    }
  }

  lemma FinishOne(s: Sweep, p: Progress, c: Coordinate, id: string)
    requires ShortId(id) && Inv(s, p) && c in p.planned
    ensures Enabled(s, p, Finish(c, id)) && Inv(s, Apply(s, p, Finish(c, id)))
    ensures var next := Apply(s, p, Finish(c, id));
      && next.planned == p.planned - {c} && p.directory <= next.directory
      && Recorded(next.done) == Recorded(p.done) + {c}
  {
    hide TrialName, ResultCount, Records;
    StepKeepsInv(s, p, Finish(c, id));
    assert Recorded(p.done + [c]) == Recorded(p.done) + {c};
  }

  /** A session can finish everything it planned. */
  lemma {:induction false} FinishPlanned(s: Sweep, p: Progress, id: string) returns (events: seq<Event>, q: Progress)
    requires ShortId(id) && Inv(s, p)
    ensures IsRun(s, p, events, q) && Inv(s, q)
    ensures p.directory <= q.directory && Recorded(q.done) == Recorded(p.done) + p.planned
    decreases |p.planned|
  {
    hide Inv, Apply, Enabled, ShortId, Recorded;
    if p.planned == {} {
      events, q := [], p;
    } else {
      var c :| c in p.planned;
      FinishOne(s, p, c, id);
      var next := Apply(s, p, Finish(c, id));
      events, q := FinishPlanned(s, next, id);
      assert ([Finish(c, id)] + events)[1..] == events;
      events := [Finish(c, id)] + events;
      assert p.planned == {c} + next.planned;
    }
  }

  lemma CompletedStays(directory: seq<DirEntry>, longer: seq<DirEntry>, prefix: string)
    requires directory <= longer && Completed(directory, prefix)
    ensures Completed(longer, prefix)
  {
    hide Matches;
    var i :| 0 <= i < |directory| && Durable(directory[i]) && Matches(prefix, directory[i].name.value);
    assert longer[i] == directory[i];
  }

  lemma NothingPlanned(s: Sweep, before: seq<DirEntry>, p: Progress)
    requires Inv(s, p) && before <= p.directory && Planned(s, before) <= Recorded(p.done)
    ensures Planned(s, p.directory) == {}
  {
    hide Completed, TrialPrefix, Attempts, Records, ResultCount;
    forall c | c in Planned(s, p.directory)
      ensures false
    {
      if Completed(before, TrialPrefix(s, c)) {
        CompletedStays(before, p.directory, TrialPrefix(s, c));
      } else {
        assert c in Planned(s, before);
        RecordedIsCompleted(s, p.directory, Recorded(p.done), c);
      }
    }
  }

  lemma StartInv(s: Sweep)
    ensures Inv(s, START)
  {
  }

  /** An ambiguous sweep reaches a job that is taken up again though nothing is left to
      plan: the confused attempt is never run. */
  lemma AmbiguousStaysUnfinished(s: Sweep) returns (events: seq<Event>, p: Progress)
    requires s.trials > 0 && !Unambiguous(s)
    ensures IsRun(s, START, events, p) && Planned(s, p.directory) == {}
    ensures Candidate(RetainedJob(s, p, 0, false), Manifest(s))
  {
    hide Unambiguous, TrialPrefix, TrialName, Candidate, Completed, Planned, IsRun, Inv, Matches;
    var c, id, other := AmbiguousConfuses(s);
    var first := FirstResult(s, c, id);
    FirstResultReached(s, c, id);
    TakenForAnother(s, c, id, other);
    StartInv(s);
    RunKeepsInv(s, START, [Restart, Finish(c, id)], first);
    var planned := Apply(s, first, Restart);
    StepKeepsInv(s, first, Restart);
    RestartRuns(s, first);
    var rest, q := FinishPlanned(s, planned, id);
    RunAppend(s, START, [Restart, Finish(c, id)], first, [Restart], planned);
    RunAppend(s, START, [Restart, Finish(c, id)] + [Restart], planned, rest, q);
    events, p := [Restart, Finish(c, id)] + [Restart] + rest, q;
    NothingPlanned(s, first.directory, p);
    assert Recorded(p.done) == {c} + Planned(s, first.directory);
    assert other !in Recorded(p.done);
    CandidateExactly(s, events, p, 0, false);
  }

  lemma RestartRuns(s: Sweep, p: Progress)
    ensures IsRun(s, p, [Restart], Apply(s, p, Restart))
  {
    assert [Restart][1..] == [];
  }

  /** So a job is always taken up again exactly when there is something to run if and
      only if the sweep's keys are unambiguous. */
  lemma UnfinishedExactCondition(s: Sweep)
    requires s.trials > 0
    ensures (forall events, p :: IsRun(s, START, events, p) ==> UnfinishedExact(s, p)) <==> Unambiguous(s)
  {
    hide Unambiguous, IsRun, Planned, Candidate;
    if Unambiguous(s) {
      forall events, p | IsRun(s, START, events, p)
        ensures UnfinishedExact(s, p)
      {
        UnambiguousUnfinished(s, events, p);
      }
    } else {
      var events, p := AmbiguousStaysUnfinished(s);
      assert !UnfinishedExact(s, p);
    }
  }

  // ------------------------------------------------------------------
  // Which job is resumed
  // ------------------------------------------------------------------

  datatype Chosen = Resumed(job: nat) | RunActive(job: nat) | Created

  ghost predicate Newest(jobs: seq<Retained>, run: RunManifest, k: nat) {
    && k < |jobs| && Candidate(jobs[k], run)
    && forall j :: 0 <= j < |jobs| && Candidate(jobs[j], run) ==> jobs[j].startedAt.value <= jobs[k].startedAt.value
  }

  /** `resume_or_create`. Sorting the candidates by start and popping the last one is
      taking a newest one; if it is locked the call fails rather than trying another. */
  method ResumeOrCreate(jobs: seq<Retained>, run: RunManifest) returns (r: Chosen)
    ensures r.Created? <==> forall j :: 0 <= j < |jobs| ==> !Candidate(jobs[j], run)
    ensures r.Resumed? ==> Newest(jobs, run, r.job) && !jobs[r.job].locked
    ensures r.RunActive? ==> Newest(jobs, run, r.job) && jobs[r.job].locked
    ensures r.Created? ==> forall j :: 0 <= j < |jobs| && Readable(jobs[j]) && SameRun(jobs[j].run.value, run) ==>
      ResultCount(jobs[j].entries.value) >= |run.roots| * |run.agents| * run.trials
    ensures !r.Created? ==>
      && r.job < |jobs| && Readable(jobs[r.job]) && SameRun(jobs[r.job].run.value, run)
      && ResultCount(jobs[r.job].entries.value) < |run.roots| * |run.agents| * run.trials
      && forall j :: 0 <= j < |jobs| && Candidate(jobs[j], run) ==>
           jobs[j].startedAt.value <= jobs[r.job].startedAt.value
  {
    var newest: Option<nat> := None;
    for i := 0 to |jobs|
      invariant newest.None? ==> forall j :: 0 <= j < i ==> !Candidate(jobs[j], run)
      invariant newest.Some? ==> newest.value < i && Candidate(jobs[newest.value], run)
      invariant newest.Some? ==> forall j :: 0 <= j < i && Candidate(jobs[j], run) ==>
        jobs[j].startedAt.value <= jobs[newest.value].startedAt.value
    {
      var job := jobs[i];
      if job.startedAt.None? || job.run.None? || job.entries.None? {
        continue;
      }
      var completed := CompletedTrialCount(job.entries.value);
      if SameRun(job.run.value, run) && completed < AttemptCount(run) {
        if newest.None? || jobs[newest.value].startedAt.value <= job.startedAt.value {
          newest := Some(i);
        }
      }
    }
    if newest.None? {
      return Created;
    }
    return if jobs[newest.value].locked then RunActive(newest.value) else Resumed(newest.value);
  }
}
