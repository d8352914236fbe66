/**
 * The loop of the contact action that turns zod's issue list into the
 * per-field error record: the first element of an issue's path names the
 * field (or `'form'` when there is none), and a field keeps a message once
 * it holds a truthy one.
 */
module ErrorMap {
  import opened ContactSchema

  /** `issue.path[0]?.toString() || 'form'`. */
  function FieldKey(issue: Issue): (k: string)
    ensures k != ""
    ensures |issue.path| > 0 && issue.path[0] != "" ==> k == issue.path[0]
    ensures (|issue.path| == 0 || issue.path[0] == "") ==> k == "form"
  {
    if |issue.path| == 0 || issue.path[0] == "" then "form" else issue.path[0]
  }

  /** A message JavaScript reads as false in `!errors[field]`: only the empty string. */
  predicate IsFalsy(m: IssueMessage) {
    m == Custom("")
  }

  /** No issue of the list carries a falsy message. */
  predicate NoFalsyMessages(issues: seq<Issue>) {
    forall i :: 0 <= i < |issues| ==> !IsFalsy(issues[i].message)
  }

  /** One iteration of the loop: `if (!errors[field]) errors[field] = issue.message`. */
  function Record(errors: map<string, IssueMessage>, issue: Issue): (r: map<string, IssueMessage>)
    ensures r.Keys == errors.Keys + {FieldKey(issue)}
    ensures forall k :: k in errors && k != FieldKey(issue) ==> r[k] == errors[k]
    ensures FieldKey(issue) in errors && !IsFalsy(errors[FieldKey(issue)]) ==> r == errors
    ensures FieldKey(issue) !in errors || IsFalsy(errors[FieldKey(issue)]) ==> r[FieldKey(issue)] == issue.message
  {
    var field := FieldKey(issue);
    if field !in errors || IsFalsy(errors[field]) then errors[field := issue.message] else errors
  }

  /** The record after the loop has visited every issue of the list, in order. */
  function ErrorsOf(issues: seq<Issue>): map<string, IssueMessage> {
    if issues == [] then map[] else Record(ErrorsOf(issues[..|issues| - 1]), issues[|issues| - 1])
  }

  /** The fields the issues are filed under. */
  function KeysOf(issues: seq<Issue>): set<string> {
    set i | 0 <= i < |issues| :: FieldKey(issues[i])
  }

  lemma KeysOfConcat(a: seq<Issue>, b: seq<Issue>)
    ensures KeysOf(a + b) == KeysOf(a) + KeysOf(b)
  {
    var ab := a + b;
    forall k | k in KeysOf(ab) ensures k in KeysOf(a) + KeysOf(b) {
      var i :| 0 <= i < |ab| && FieldKey(ab[i]) == k;
      if i >= |a| { assert ab[i] == b[i - |a|]; }
    }
    forall k | k in KeysOf(b) ensures k in KeysOf(ab) {
      var i :| 0 <= i < |b| && FieldKey(b[i]) == k;
      assert ab[|a| + i] == b[i];
    }
    forall k | k in KeysOf(a) ensures k in KeysOf(ab) {
      var i :| 0 <= i < |a| && FieldKey(a[i]) == k;
      assert ab[i] == a[i];
    }
  }

  /** Issues that all carry the path `[key]` are filed under `key` alone. */
  lemma KeysOfBlock(block: seq<Issue>, key: string)
    requires key != ""
    requires forall i :: 0 <= i < |block| ==> block[i].path == [key]
    ensures KeysOf(block) == if block == [] then {} else {key}
  {
    if block != [] {
      assert FieldKey(block[0]) == key;
    }
  }

  /** `issues[j]` is the first issue filed under `k`. */
  predicate IsFirstFor(issues: seq<Issue>, k: string, j: int) {
    && 0 <= j < |issues|
    && FieldKey(issues[j]) == k
    && forall i :: 0 <= i < j ==> FieldKey(issues[i]) != k
  }

  /** The loop itself, over a local dictionary. */
  method Aggregate(issues: seq<Issue>) returns (errors: map<string, IssueMessage>)
    ensures errors == ErrorsOf(issues)
    ensures errors.Keys == KeysOf(issues)
  {
    errors := map[];
    for i := 0 to |issues|
      invariant errors == ErrorsOf(issues[..i])
    {
      var field := FieldKey(issues[i]);
      if field !in errors || IsFalsy(errors[field]) {
        errors := errors[field := issues[i].message];
      }
      assert issues[..i + 1][..i] == issues[..i];
    }
    assert issues[..|issues|] == issues;
    ErrorsOfKeys(issues);
  }

  /** The record has an entry for exactly the fields some issue is filed under. */
  lemma {:induction false} ErrorsOfKeys(issues: seq<Issue>)
    ensures ErrorsOf(issues).Keys == KeysOf(issues)
  {
    if issues != [] {
      var n := |issues| - 1;
      var front, last := issues[..n], issues[n];
      ErrorsOfKeys(front);
      assert issues == front + [last];
      KeysOfConcat(front, [last]);
      assert KeysOf([last]) == {FieldKey(last)} by {
        assert [last][0] == last;
      }
    }
  }

  /**
   * First issue wins: when no message is falsy, the entry for `k` is the
   * message of the first issue filed under `k`; later issues on `k` are dropped.
   */
  lemma {:induction false} ErrorsOfFirstWins(issues: seq<Issue>, k: string, j: int)
    requires NoFalsyMessages(issues)
    requires IsFirstFor(issues, k, j)
    ensures k in ErrorsOf(issues) && ErrorsOf(issues)[k] == issues[j].message
  {
    var n := |issues| - 1;
    var front := issues[..n];
    if j == n {
      ErrorsOfKeys(front);
      assert k !in KeysOf(front);
    } else {
      assert IsFirstFor(front, k, j);
      ErrorsOfFirstWins(front, k, j);
    }
  }

  /** A block whose first issue is filed under `k`, after issues none of which is. */
  lemma FirstOfBlock(pre: seq<Issue>, block: seq<Issue>, post: seq<Issue>, k: string)
    requires NoFalsyMessages(pre + block + post)
    requires k !in KeysOf(pre)
    requires block != [] && FieldKey(block[0]) == k
    ensures k in ErrorsOf(pre + block + post) && ErrorsOf(pre + block + post)[k] == block[0].message
  {
    var all := pre + block + post;
    assert all[|pre|] == block[0];
    forall i | 0 <= i < |pre| ensures FieldKey(all[i]) != k {
      assert all[i] == pre[i];
      assert FieldKey(pre[i]) in KeysOf(pre);
    }
    ErrorsOfFirstWins(all, k, |pre|);
  }

  /** An issue with no path is filed under `'form'`. */
  lemma PathlessIssueFiledUnderForm(m: IssueMessage)
    ensures ErrorsOf([Issue([], m)]) == map["form" := m]
  {
  }

  /** The falsy test means an empty message does not hold its field: the next issue overwrites it. */
  lemma EmptyMessageIsOverwritten(field: string, m: IssueMessage)
    requires field != ""
    ensures ErrorsOf([Issue([field], Custom("")), Issue([field], m)]) == map[field := m]
  {
    var issues := [Issue([field], Custom("")), Issue([field], m)];
    assert issues[..1] == [Issue([field], Custom(""))];
    assert issues[..1][..0] == [];
    assert ErrorsOf(issues[..1]) == map[field := Custom("")];
  }
}
