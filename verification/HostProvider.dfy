/** Host rotation (zk/dnshostprovider.go) and the shuffle it uses (zk/util.go:50-55). */
module HostProvider {
  import opened Text
  import opened Errors
  import opened Modular

  // ----- stringShuffle

  predicate Choices(choice: seq<nat>, n: nat)
  {
    |choice| == n && forall i :: 0 < i < n ==> choice[i] <= i
  }

  function Swap(s: seq<string>, i: nat, j: nat): (r: seq<string>)
    requires i < |s| && j < |s|
    ensures |r| == |s|
  {
    s[i := s[j]][j := s[i]]
  }

  /** The turns of the loop from position i down. */
  function Shuffled(s: seq<string>, i: int, choice: seq<nat>): (r: seq<string>)
    requires i < |s| && Choices(choice, |s|)
    ensures |r| == |s|
    decreases i
  {
    if i <= 0 then s else Shuffled(Swap(s, i, choice[i]), i - 1, choice)
  }

  lemma {:induction false} SwapPermutes(s: seq<string>, i: nat, j: nat)
    requires i < |s| && j < |s|
    ensures multiset(Swap(s, i, j)) == multiset(s)
  {
  }

  /** Whatever the choices, the result is a permutation. */
  lemma {:induction false} ShuffledPermutes(s: seq<string>, i: int, choice: seq<nat>)
    requires i < |s| && Choices(choice, |s|)
    ensures multiset(Shuffled(s, i, choice)) == multiset(s)
    decreases i
  {
    hide Swap;
    if i > 0 {
      SwapPermutes(s, i, choice[i]);
      ShuffledPermutes(Swap(s, i, choice[i]), i - 1, choice);
    }
  }

  /** stringShuffle: Fisher-Yates in place; `choice` is what rand.Intn returned. */
  method Shuffle(s: array<string>, choice: seq<nat>)
    requires Choices(choice, s.Length)
    modifies s
    ensures s[..] == Shuffled(old(s[..]), s.Length - 1, choice)
  {
    var i := s.Length - 1;
    while i > 0
      invariant i < s.Length
      invariant Shuffled(s[..], i, choice) == Shuffled(old(s[..]), s.Length - 1, choice)
    {
      var j := choice[i];
      ghost var before := s[..];
      s[i], s[j] := s[j], s[i];
      assert s[..] == Swap(before, i, j);
      i := i - 1;
    }
  }

  /** Only choices up to i matter from position i down. */
  lemma {:induction false} ShuffledLooksBelow(s: seq<string>, i: int, c: seq<nat>, d: seq<nat>)
    requires i < |s| && Choices(c, |s|) && Choices(d, |s|)
    requires forall k :: 0 < k <= i ==> c[k] == d[k]
    ensures Shuffled(s, i, c) == Shuffled(s, i, d)
    decreases i
  {
    hide Swap;
    if i > 0 {
      ShuffledLooksBelow(Swap(s, i, c[i]), i - 1, c, d);
    }
  }

  lemma {:induction false} SplitCount(s: seq<string>, i: nat)
    requires i <= |s|
    ensures multiset(s) == multiset(s[..i]) + multiset(s[i..])
  {
    assert s == s[..i] + s[i..];
  }

  /** Lists that agree behind position i hold the same strings up to it. */
  lemma {:induction false} FindFor(s: seq<string>, t: seq<string>, i: nat) returns (j: nat)
    requires |s| == |t| && i < |s| && multiset(s) == multiset(t) && s[i + 1..] == t[i + 1..]
    ensures j <= i && s[j] == t[i]
  {
    SplitCount(s, i + 1);
    SplitCount(t, i + 1);
    var x := t[i];
    assert t[..i + 1][i] == x;
    assert multiset(t[..i + 1])[x] > 0;
    assert multiset(s)[x] == multiset(s[..i + 1])[x] + multiset(s[i + 1..])[x];
    assert multiset(t)[x] == multiset(t[..i + 1])[x] + multiset(t[i + 1..])[x];
    assert x in s[..i + 1];
    j :| 0 <= j < i + 1 && s[..i + 1][j] == x;
  }

  lemma {:induction false} SwapTail(s: seq<string>, t: seq<string>, i: nat, j: nat)
    requires |s| == |t| && j <= i < |s| && s[i + 1..] == t[i + 1..] && s[j] == t[i]
    ensures Swap(s, i, j)[i..] == t[i..]
  {
    forall k | i < k < |s| ensures s[k] == t[k] {
      assert s[k] == s[i + 1..][k - i - 1];
    }
  }

  /** No order is out of reach: for every permutation there are choices that
      shuffle the list into it. */
  lemma {:induction false} ShuffleReaches(s: seq<string>, t: seq<string>) returns (choice: seq<nat>)
    requires multiset(s) == multiset(t)
    ensures Choices(choice, |s|) && Shuffled(s, |s| - 1, choice) == t
  {
    SameLength(s, t);
    assert s[|s|..] == t[|t|..];
    choice := ReachesFrom(s, t, |s| - 1);
  }

  lemma {:induction false} ReachesFrom(s: seq<string>, t: seq<string>, i: int) returns (choice: seq<nat>)
    requires |s| == |t| && -1 <= i < |s| && multiset(s) == multiset(t) && s[i + 1..] == t[i + 1..]
    ensures Choices(choice, |s|) && Shuffled(s, i, choice) == t
    decreases i
  {
    hide Swap;
    if i <= 0 {
      choice := seq(|s|, k => 0);
      SameAll(s, t, i);
    } else {
      var j := FindFor(s, t, i);
      SwapPermutes(s, i, j);
      SwapTail(s, t, i, j);
      var c := ReachesFrom(Swap(s, i, j), t, i - 1);
      choice := c[i := j];
      ShuffledLooksBelow(Swap(s, i, j), i - 1, c, choice);
    }
  }

  lemma {:induction false} SameAll(s: seq<string>, t: seq<string>, i: int)
    requires |s| == |t| && -1 <= i <= 0 && i < |s| && multiset(s) == multiset(t) && s[i + 1..] == t[i + 1..]
    ensures s == t
  {
    if i == 0 {
      var j := FindFor(s, t, 0);
      assert s == [s[0]] + s[1..] && t == [t[0]] + t[1..];
    } else {
      assert s == s[i + 1..] && t == t[i + 1..];
    }
  }

  // ----- the calls made on a provider since Init

  datatype Call = NextCall | ConnectedCall

  /** How many of the calls are Next. */
  function Nexts(h: seq<Call>): nat
  {
    if h == [] then 0 else Nexts(h[..|h| - 1]) + if Last(h).NextCall? then 1 else 0
  }

  /** The fields curr and last after a history of calls over n servers. */
  function Position(h: seq<Call>, n: nat): (int, int)
    requires n > 0
  {
    if h == [] then (-1, -1)
    else
      var (curr, last) := Position(h[..|h| - 1], n);
      match Last(h)
      case NextCall => ((curr + 1) % n, if last == -1 then 0 else last)
      case ConnectedCall => (curr, curr)
  }

  /** What Next answers for retryStart after the history. */
  function RetryStart(h: seq<Call>, n: nat): bool
    requires n > 0
  {
    var (curr, last) := Position(h, n);
    (curr + 1) % n == last
  }

  /** h[ref - 1] is the call the rotation counts from: the last Connected that
      follows some Next, or, if there is none, the first Next. */
  ghost predicate CountsFrom(h: seq<Call>, ref: nat)
  {
    && 1 <= ref <= |h|
    && (forall k :: ref <= k < |h| ==> !h[k].ConnectedCall?)
    && (h[ref - 1].ConnectedCall? ==> Nexts(h[..ref - 1]) > 0)
    && (h[ref - 1].NextCall? ==> Nexts(h[..ref - 1]) == 0)
  }

  /** curr is the number of Next calls made so far, less one, around the servers. */
  lemma {:induction false} CurrIs(h: seq<Call>, n: nat)
    requires n > 0
    ensures Position(h, n).0 == if Nexts(h) == 0 then -1 else (Nexts(h) - 1) % n
    ensures Nexts(h) == 0 ==> Position(h, n).1 == -1
  {
    if h != [] {
      CurrIs(h[..|h| - 1], n);
      var before := Nexts(h[..|h| - 1]);
      if before > 0 && Last(h).NextCall? {
        BumpStays(before - 1, n);
      }
    }
  }

  /** last is the slot of the call the rotation counts from. */
  lemma {:induction false} LastIs(h: seq<Call>, n: nat, ref: nat)
    requires n > 0 && CountsFrom(h, ref)
    ensures Nexts(h) == Nexts(h[..ref]) + Nexts(h[ref..]) && Nexts(h[..ref]) > 0
    ensures Position(h, n).1 == (Nexts(h[..ref]) - 1) % n
  {
    if |h| == ref {
      assert h[..ref] == h && h[ref..] == [];
      CurrIs(h[..|h| - 1], n);
    } else {
      var shorter := h[..|h| - 1];
      assert shorter[..ref] == h[..ref] && shorter[..ref - 1] == h[..ref - 1];
      assert shorter[ref..] == h[ref..][..|h[ref..]| - 1];
      LastIs(shorter, n, ref);
    }
  }

  /** The closed form: retryStart is true exactly when the Next calls since the
      reference, this one included, are a multiple of the number of servers. */
  lemma {:induction false} RetryStartClosedForm(h: seq<Call>, n: nat, ref: nat)
    requires n > 0 && CountsFrom(h, ref)
    ensures RetryStart(h, n) <==> (Nexts(h[ref..]) + 1) % n == 0
  {
    LastIs(h, n, ref);
    CurrIs(h, n);
    var a, m := Nexts(h[..ref]) - 1, Nexts(h[ref..]) + 1;
    BumpStays(Nexts(h) - 1, n);
    assert Nexts(h) == a + m;
    SameRemainder(a + m, a, n);
  }

  /** Before the first Next there is nothing to count from, and the answer is false. */
  lemma {:induction false} FirstNextNeverRetries(h: seq<Call>, n: nat)
    requires n > 0 && Nexts(h) == 0
    ensures !RetryStart(h, n)
  {
    CurrIs(h, n);
  }

  /** Once Next was called there is a call to count from. */
  lemma {:induction false} ReferenceExists(h: seq<Call>) returns (ref: nat)
    requires Nexts(h) > 0
    ensures CountsFrom(h, ref)
  {
    var shorter := h[..|h| - 1];
    if Last(h).ConnectedCall? || Nexts(shorter) == 0 {
      ref := |h|;
    } else {
      ref := ReferenceExists(shorter);
      assert shorter[..ref - 1] == h[..ref - 1];
    }
  }

  /** What one Next does to the position, and what it answers. */
  lemma {:induction false} NextMeans(h: seq<Call>, n: nat)
    requires n > 0
    ensures var (curr, last) := Position(h, n);
            && Position(h + [NextCall], n) == ((curr + 1) % n, if last == -1 then 0 else last)
            && (curr + 1) % n == Nexts(h) % n
            && (forall ref: nat :: CountsFrom(h, ref) ==> ((curr + 1) % n == last <==> (Nexts(h[ref..]) + 1) % n == 0))
            && (Nexts(h) == 0 ==> (curr + 1) % n != last)
  {
    assert (h + [NextCall])[..|h|] == h;
    CurrIs(h, n);
    if Nexts(h) > 0 {
      BumpStays(Nexts(h) - 1, n);
    }
    forall ref: nat | CountsFrom(h, ref) ensures RetryStart(h, n) <==> (Nexts(h[ref..]) + 1) % n == 0 {
      RetryStartClosedForm(h, n, ref);
    }
  }

  // ----- what a window of calls answers

  /** The servers that the Next calls of a history answer, in order. */
  function Answers(h: seq<Call>, servers: seq<string>): (r: seq<string>)
    requires servers != []
  {
    if h == [] then []
    else
      var front := h[..|h| - 1];
      Answers(front, servers) +
      if Last(h).NextCall? then [servers[(Position(front, |servers|).0 + 1) % |servers|]] else []
  }

  lemma {:induction false} AnswersAre(h: seq<Call>, servers: seq<string>)
    requires servers != []
    ensures |Answers(h, servers)| == Nexts(h)
    ensures forall k :: 0 <= k < Nexts(h) ==> Answers(h, servers)[k] == servers[k % |servers|]
  {
    if h != [] {
      var front := h[..|h| - 1];
      AnswersAre(front, servers);
      CurrIs(front, |servers|);
      if Nexts(front) > 0 {
        BumpStays(Nexts(front) - 1, |servers|);
      }
    }
  }

  lemma {:induction false} AnswersSnoc(h: seq<Call>, servers: seq<string>)
    requires servers != []
    ensures Answers(h + [NextCall], servers) == Answers(h, servers) + [servers[(Position(h, |servers|).0 + 1) % |servers|]]
  {
    assert (h + [NextCall])[..|h|] == h;
  }

  lemma {:induction false} NextsSplit(h: seq<Call>, i: nat, j: nat)
    requires i <= j <= |h|
    ensures Nexts(h[..j]) == Nexts(h[..i]) + Nexts(h[i..j])
  {
    if i < j {
      NextsSplit(h, i, j - 1);
      assert h[..j][..j - 1] == h[..j - 1] && h[i..j][..j - i - 1] == h[i..j - 1];
    } else {
      assert h[i..j] == [];
    }
  }

  /** Going once around, from wherever it starts, is a rotation of the list. */
  lemma {:induction false} OnceAround(servers: seq<string>, start: nat, turn: seq<string>)
    requires servers != [] && |turn| == |servers|
    requires forall t :: 0 <= t < |turn| ==> turn[t] == servers[(start + t) % |servers|]
    ensures multiset(turn) == multiset(servers)
  {
    var n := |servers|;
    var q, r := start / n, start % n;
    assert start == n * q + r;
    forall t | 0 <= t < n ensures turn[t] == (servers[r..] + servers[..r])[t] {
      if t < n - r {
        ModUnique(start + t, n, q, r + t);
      } else {
        assert start + t == n * (q + 1) + (r + t - n);
        ModUnique(start + t, n, q + 1, r + t - n);
      }
    }
    assert turn == servers[r..] + servers[..r];
    assert servers == servers[..r] + servers[r..];
  }

  /** Any stretch of a history with as many Next calls as there are servers answers
      each of them exactly once, whatever Connected calls come between. */
  lemma {:induction false} WindowVisitsAll(h: seq<Call>, i: nat, j: nat, servers: seq<string>)
    requires servers != [] && i <= j <= |h| && Nexts(h[i..j]) == |servers|
    ensures |Answers(h[..i], servers)| <= |Answers(h[..j], servers)|
    ensures multiset(Answers(h[..j], servers)[|Answers(h[..i], servers)|..]) == multiset(servers)
  {
    hide Answers, Nexts, Position;
    NextsSplit(h, i, j);
    AnswersAre(h[..i], servers);
    AnswersAre(h[..j], servers);
    OnceAround(servers, Nexts(h[..i]), Answers(h[..j], servers)[Nexts(h[..i])..]);
  }

  // ----- the provider

  /** The addresses found for the servers before the first failure. */
  function Found(answers: seq<Reply<seq<string>>>): seq<string>
    requires forall k :: 0 <= k < |answers| ==> answers[k].Ok?
  {
    if answers == [] then [] else Found(answers[..|answers| - 1]) + Last(answers).value
  }

  /** How often an address was found, over all servers. */
  function Times(answers: seq<Reply<seq<string>>>, address: string): nat
    requires forall k :: 0 <= k < |answers| ==> answers[k].Ok?
  {
    if answers == [] then 0 else multiset(answers[0].value)[address] + Times(answers[1..], address)
  }

  lemma {:induction false} TimesSnoc(answers: seq<Reply<seq<string>>>, address: string)
    requires answers != [] && forall k :: 0 <= k < |answers| ==> answers[k].Ok?
    ensures Times(answers, address) == Times(answers[..|answers| - 1], address) + multiset(Last(answers).value)[address]
  {
    if |answers| > 1 {
      TimesSnoc(answers[1..], address);
      assert answers[1..][..|answers| - 2] == answers[..|answers| - 1][1..];
    }
  }

  /** Every address of every server is found as often as it was answered, and
      nothing else is. */
  lemma {:induction false} FoundTimes(answers: seq<Reply<seq<string>>>, address: string)
    requires forall k :: 0 <= k < |answers| ==> answers[k].Ok?
    ensures multiset(Found(answers))[address] == Times(answers, address)
  {
    if answers != [] {
      FoundTimes(answers[..|answers| - 1], address);
      TimesSnoc(answers, address);
    }
  }

  lemma {:induction false} TimesAtLeast(answers: seq<Reply<seq<string>>>, k: nat, address: string)
    requires (forall j :: 0 <= j < |answers| ==> answers[j].Ok?) && k < |answers|
    ensures Times(answers, address) >= multiset(answers[k].value)[address]
  {
    if k > 0 {
      TimesAtLeast(answers[1..], k - 1, address);
    }
  }

  lemma {:induction false} AllFound(answers: seq<Reply<seq<string>>>, servers: seq<string>)
    requires forall k :: 0 <= k < |answers| ==> answers[k].Ok?
    requires multiset(servers) == multiset(Found(answers))
    ensures forall x :: multiset(servers)[x] == Times(answers, x)
    ensures forall k, x :: 0 <= k < |answers| && x in answers[k].value ==> x in servers
  {
    hide Found, Times;
    forall x ensures multiset(servers)[x] == Times(answers, x) {
      FoundTimes(answers, x);
    }
    forall k, x | 0 <= k < |answers| && x in answers[k].value ensures x in servers {
      TimesAtLeast(answers, k, x);
      assert multiset(answers[k].value)[x] > 0;
      assert x in multiset(servers);
    }
  }

  /** The first failure among the answers. */
  ghost predicate FailsFirst(answers: seq<Reply<seq<string>>>, k: nat, error: Error)
  {
    k < |answers| && answers[k] == Err(error) && forall j :: 0 <= j < k ==> answers[j].Ok?
  }

  /** The loop over the servers: all addresses, or the first failure. */
  method Resolve(answers: seq<Reply<seq<string>>>) returns (r: Reply<seq<string>>)
    ensures r.Ok? <==> forall k :: 0 <= k < |answers| ==> answers[k].Ok?
    ensures r.Ok? ==> r.value == Found(answers)
    ensures r.Err? ==> exists k :: FailsFirst(answers, k, r.error)
  {
    var found: seq<string> := [];
    var i := 0;
    while i < |answers|
      invariant 0 <= i <= |answers|
      invariant forall k :: 0 <= k < i ==> answers[k].Ok?
      invariant found == Found(answers[..i])
    {
      if answers[i].Err? {
        assert FailsFirst(answers, i, answers[i].error);
        return Err(answers[i].error);
      }
      assert answers[..i + 1][..i] == answers[..i];
      found := Append(found, answers[i].value);
      i := i + 1;
    }
    assert answers[..i] == answers;
    return Ok(found);
  }

  method Copy(s: seq<string>) returns (a: array<string>)
    ensures fresh(a) && a[..] == s
  {
    a := new string[|s|](k requires 0 <= k < |s| => s[k]);
  }

  class DNSHostProvider {
    var servers: seq<string>
    var curr: int
    var last: int
    ghost var history: seq<Call>    // the calls since Init

    ghost predicate Valid()
      reads this
    {
      |servers| > 0 && (curr, last) == Position(history, |servers|)
    }

    constructor ()
      ensures servers == [] && curr == 0 && last == 0
    {
      servers, curr, last, history := [], 0, 0, [];
    }

    /** Init: answers[k] is what splitting, looking up and joining server k gave. */
    method Init(answers: seq<Reply<seq<string>>>, choice: seq<nat>) returns (r: Reply<()>)
      requires (forall k :: 0 <= k < |answers| ==> answers[k].Ok?) ==> Choices(choice, |Found(answers)|)
      modifies this
      ensures r.Ok? <==> (forall k :: 0 <= k < |answers| ==> answers[k].Ok?) && Found(answers) != []
      ensures r.Ok? ==> Valid() && history == [] && servers == Shuffled(Found(answers), |Found(answers)| - 1, choice)
      ensures r.Ok? ==> multiset(servers) == multiset(Found(answers))
      ensures r.Ok? ==> forall x :: multiset(servers)[x] == Times(answers, x)
      ensures r.Ok? ==> forall k, x :: 0 <= k < |answers| && x in answers[k].value ==> x in servers
      ensures r.Err? && (exists k :: 0 <= k < |answers| && answers[k].Err?) ==> exists k :: FailsFirst(answers, k, r.error)
      ensures r.Err? ==> servers == old(servers) && curr == old(curr) && last == old(last) && history == old(history)
    {
      hide Shuffled, Choices, Nexts, RetryStart, Times, Found, FailsFirst;
      var found := Resolve(answers);
      if found.Err? {
        return Err(found.error);
      }
      if found.value == [] {
        return Err(ErrOther(0));
      }
      var shuffled := Copy(found.value);
      Shuffle(shuffled, choice);
      ShuffledPermutes(found.value, |found.value| - 1, choice);
      AllFound(answers, shuffled[..]);
      servers := shuffled[..];
      curr := -1;
      last := -1;
      history := [];
      return Ok(());
    }

    /** Next rotates through the servers in order, whatever Connected calls come
        in between, and reports a full turn since the reference call. */
    method Next() returns (server: string, retryStart: bool)
      requires Valid()
      modifies this
      ensures Valid() && servers == old(servers) && history == old(history) + [NextCall]
      ensures Answers(history, servers) == Answers(old(history), servers) + [server]
      ensures server == servers[Nexts(old(history)) % |servers|]
      ensures forall ref: nat :: CountsFrom(old(history), ref) ==>
                (retryStart <==> (Nexts(old(history)[ref..]) + 1) % |servers| == 0)
      ensures Nexts(old(history)) == 0 ==> !retryStart
    {
      hide Position, RetryStart, Nexts, CountsFrom, Answers;
      NextMeans(history, |servers|);
      AnswersSnoc(history, servers);
      curr := (curr + 1) % |servers|;
      retryStart := curr == last;
      if last == -1 {
        last := 0;
      }
      history := history + [NextCall];
      server := servers[curr];
    }

    /** Connected makes the current server the reference. */
    method Connected()
      requires Valid()
      modifies this
      ensures Valid() && servers == old(servers) && history == old(history) + [ConnectedCall]
    {
      last := curr;
      history := history + [ConnectedCall];
      assert history[..|history| - 1] == old(history);
    }
  }

  method Append(found: seq<string>, addrs: seq<string>) returns (r: seq<string>)
    ensures r == found + addrs
  {
    r := found;
    var i := 0;
    while i < |addrs|
      invariant 0 <= i <= |addrs| && r == found + addrs[..i]
    {
      assert addrs[..i + 1] == addrs[..i] + [addrs[i]];
      r := r + [addrs[i]];
      i := i + 1;
    }
    assert addrs[..i] == addrs;
  }

  lemma {:induction false} SameLength(a: seq<string>, b: seq<string>)
    requires multiset(a) == multiset(b)
    ensures |a| == |b|
  {
    assert |multiset(a)| == |a| && |multiset(b)| == |b|;
  }
}
