/** The converter from stored item statistics to the statistics resource:
    defect counters grouped by issue group, execution counters by status. */
module StatisticsConverter {
  import opened Common

  /** A defect counter of one issue type; `issueGroup` is the value of the
      type's test item issue group. */
  datatype IssueStatistics = IssueStatistics(issueGroup: string, locator: string, counter: Option<int>)

  datatype ExecutionStatistics = ExecutionStatistics(status: string, counter: Option<int>)

  /** The resource: per issue group a one-entry map from the issue type's
      locator to its counter, and per status the execution counter. */
  datatype Statistics = Statistics(defects: map<string, map<string, Option<int>>>, executions: map<string, int>)

  /** No two of the first `n` elements share a key. */
  predicate DistinctKeys<T>(s: seq<T>, key: T -> string, n: nat)
    requires n <= |s|
  {
    forall i, j :: 0 <= i < j < n ==> key(s[i]) != key(s[j])
  }

  /** Every one of the first `n` elements has a non-null value. */
  predicate NonNullValues<T, V>(s: seq<T>, value: T -> Option<V>, n: nat)
    requires n <= |s|
  {
    forall i :: 0 <= i < n ==> value(s[i]).Some?
  }

  /** `Collectors.toMap(key, value)` over the first `n` elements in iteration
      order: a null value is a `NullPointerException` and a repeated key an
      `IllegalStateException`, whichever element comes first. */
  function ToMap<T, V>(s: seq<T>, key: T -> string, value: T -> Option<V>, n: nat): (r: Result<map<string, V>>)
    requires n <= |s|
    ensures r.Success? ==> |r.value| == n
    ensures r.Success? ==> forall i :: 0 <= i < n ==> key(s[i]) in r.value && Some(r.value[key(s[i])]) == value(s[i])
    decreases n
  {
    if n == 0 then
      Success(map[])
    else
      match ToMap(s, key, value, n - 1)
      case Failure(e) => Failure(e)
      case Success(m) =>
        var x := s[n - 1];
        match value(x)
        case None => Failure(NullPointerException)
        case Some(v) =>
          if key(x) in m then
            Failure(DuplicateKey(key(x)))
          else
            Success(m[key(x) := v])
  }

  /** The collection succeeds exactly when no value is null and no key repeats. */
  lemma {:induction false} ToMapSucceeds<T, V>(s: seq<T>, key: T -> string, value: T -> Option<V>, n: nat)
    requires n <= |s|
    ensures ToMap(s, key, value, n).Success? <==> NonNullValues(s, value, n) && DistinctKeys(s, key, n)
    decreases n
  {
    if n > 0 {
      ToMapSucceeds(s, key, value, n - 1);
      var prev := ToMap(s, key, value, n - 1);
      if prev.Success? && value(s[n - 1]).Some? {
        if key(s[n - 1]) in prev.value {
          ToMapKeysFromInput(s, key, value, n - 1);
        }
      }
    }
  }

  /** Every key of the collected map is the key of a collected element. */
  lemma {:induction false} ToMapKeysFromInput<T, V>(s: seq<T>, key: T -> string, value: T -> Option<V>, n: nat)
    requires n <= |s|
    ensures ToMap(s, key, value, n).Success? ==>
              forall k :: k in ToMap(s, key, value, n).value ==> exists i :: 0 <= i < n && key(s[i]) == k
    decreases n
  {
    if n > 0 {
      ToMapKeysFromInput(s, key, value, n - 1);
    }
  }

  /** A failure is a null value or a repeated key of some element. */
  lemma {:induction false} ToMapFailure<T, V>(s: seq<T>, key: T -> string, value: T -> Option<V>, n: nat)
    requires n <= |s|
    ensures ToMap(s, key, value, n).Failure? ==>
              (ToMap(s, key, value, n).error == NullPointerException && !NonNullValues(s, value, n))
              || exists i :: 0 <= i < n && ToMap(s, key, value, n).error == DuplicateKey(key(s[i]))
    decreases n
  {
    if n > 0 {
      ToMapFailure(s, key, value, n - 1);
    }
  }

  function IssueGroupOf(i: IssueStatistics): string {
    i.issueGroup
  }

  /** `TO_ISSUE`: the one-entry map from the locator to the counter. */
  function ToIssue(i: IssueStatistics): (r: map<string, Option<int>>)
    ensures |r| == 1 && i.locator in r && r[i.locator] == i.counter
  {
    map[i.locator := i.counter]
  }

  function IssueValue(i: IssueStatistics): Option<map<string, Option<int>>> {
    Some(ToIssue(i))
  }

  function StatusOf(e: ExecutionStatistics): string {
    e.status
  }

  function CounterOf(e: ExecutionStatistics): Option<int> {
    e.counter
  }

  /** `TO_RESOURCE`: the defects, then the executions, each collected with
      `toMap`. The sequences stand for the iteration order of the sets. */
  function ToResource(issues: seq<IssueStatistics>, executions: seq<ExecutionStatistics>): (r: Result<Statistics>)
    ensures r.Success? <==>
              DistinctKeys(issues, IssueGroupOf, |issues|)
              && DistinctKeys(executions, StatusOf, |executions|) && NonNullValues(executions, CounterOf, |executions|)
    ensures !DistinctKeys(issues, IssueGroupOf, |issues|) ==>
              exists i :: 0 <= i < |issues| && r == Failure(DuplicateKey(issues[i].issueGroup))
    ensures r.Success? ==>
              && |r.value.defects| == |issues|
              && (forall i :: 0 <= i < |issues| ==>
                    issues[i].issueGroup in r.value.defects
                    && r.value.defects[issues[i].issueGroup] == map[issues[i].locator := issues[i].counter])
              && |r.value.executions| == |executions|
              && (forall i :: 0 <= i < |executions| ==>
                    executions[i].status in r.value.executions
                    && Some(r.value.executions[executions[i].status]) == executions[i].counter)
  {
    ToMapSucceeds(issues, IssueGroupOf, IssueValue, |issues|);
    ToMapSucceeds(executions, StatusOf, CounterOf, |executions|);
    ToMapFailure(issues, IssueGroupOf, IssueValue, |issues|);
    var defects :- ToMap(issues, IssueGroupOf, IssueValue, |issues|);
    var counters :- ToMap(executions, StatusOf, CounterOf, |executions|);
    Success(Statistics(defects, counters))
  }

  /** No statistics convert to empty maps. */
  lemma EmptyStatistics()
    ensures ToResource([], []) == Success(Statistics(map[], map[]))
  {
  }
}
