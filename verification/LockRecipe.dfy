/** `Lock` values as the program holds them (zk/lock.go): the fields lockPath and
    seq, the create loop, the list-and-watch loop and Unlock.  What the connection
    answers is given as a script; LockTurns says how a script follows a run of
    LockProtocol. */
module LockRecipe {
  import opened Text
  import opened Errors
  import opened LockNames
  import opened LockScan

  /** Answers about one ancestor of the lock path: Exists, then Create. */
  datatype ParentReply = ParentReply(found: Reply<bool>, create: Reply<string>)

  /** One protected create; `parents` is consulted only after ErrNoNode. */
  datatype Attempt = Attempt(reply: Reply<string>, parents: seq<ParentReply>)

  /** One turn of the waiting loop: Children, then GetW, then the channel's event. */
  datatype Round = Round(children: Reply<seq<string>>, getW: Reply<()>, event: Reply<()>)

  datatype Outcome = Acquired | Failed(error: Error) | StillWaiting

  // ----- creating the missing parents (zk/lock.go:57-74)

  function Ancestor(path: string, k: nat): string
    requires k < |Split(path, '/')|
  {
    Join(Split(path, '/')[..k + 1], '/')
  }

  /** The error that stops the parent loop at this ancestor. */
  function ParentError(reply: ParentReply): Option<Error>
  {
    if reply.found.Err? then Some(reply.found.error)
    else if !reply.found.value && reply.create.Err? && reply.create.error != ErrNodeExists then Some(reply.create.error)
    else None
  }

  /** The ancestor is there: it existed, or was created, now or by someone else. */
  predicate Built(reply: ParentReply)
  {
    ParentError(reply).None?
  }

  /** The error that the parent loop leaves behind: the one it started with, or
      that of its last call. */
  function LeftOver(replies: seq<ParentReply>): Option<Error>
  {
    if replies == [] then Some(ErrNoNode)
    else if Last(replies).found == Ok(true) then None
    else if Last(replies).create.Err? then Some(Last(replies).create.error)
    else None
  }

  /** The parents are built when every ancestor is; otherwise the first failure is
      the answer.  `asked` is the sequence of paths given to Exists, `left` the
      error variable at the end. */
  lemma {:induction false} BuiltMeans(reply: ParentReply)
    ensures Built(reply) <==>
              reply.found.Ok? && (reply.found.value || reply.create.Ok? || reply.create == Err(ErrNodeExists))
    ensures forall e :: ParentError(reply) == Some(e) <==>
              || reply.found == Err(e)
              || (reply.found == Ok(false) && reply.create == Err(e) && e != ErrNodeExists)
  {
  }

  method EnsureParents(path: string, replies: seq<ParentReply>) returns (r: Reply<()>, left: Option<Error>, asked: seq<string>)
    requires |replies| == |Split(path, '/')| - 1
    ensures r.Ok? <==> forall k :: 0 <= k < |replies| ==> Built(replies[k])
    ensures r.Ok? ==> left == LeftOver(replies) && |asked| == |replies|
    ensures r.Err? ==>
              && 0 < |asked| <= |replies| && ParentError(replies[|asked| - 1]) == Some(r.error)
              && forall k :: 0 <= k < |asked| - 1 ==> Built(replies[k])
    ensures path != "" && path[0] == '/' ==>
              && (forall k :: 0 <= k < |asked| ==> asked[k] == Ancestor(path, k + 1))
              && (r.Ok? ==> asked != [] && Last(asked) == path)
  {
    hide Split, Join, Ancestor, LeftOver;
    ghost var rooted := path != "" && path[0] == '/';
    var parts := Split(path, '/');
    if rooted {
      RootPart(path);
    }
    var pth := "";
    asked := [];
    left := Some(ErrNoNode);
    NothingAsked(replies);
    var i := 1;
    while i < |parts|
      invariant 1 <= i <= |parts|
      invariant rooted ==> pth == Join(parts[..i], '/')
      invariant |asked| == i - 1
      invariant left == LeftOver(replies[..i - 1])
      invariant forall k :: 0 <= k < i - 1 ==> Built(replies[k])
      invariant rooted ==> forall k :: 0 <= k < i - 1 ==> asked[k] == Ancestor(path, k + 1)
    {
      NextAncestor(path, i);
      OneMoreReply(replies, i);
      pth := pth + "/" + parts[i];
      asked := asked + [pth];
      var reply := replies[i - 1];
      if reply.found.Err? {
        return Err(reply.found.error), left, asked;
      }
      if reply.found.value {
        left := None;
      } else {
        if reply.create.Err? && reply.create.error != ErrNodeExists {
          return Err(reply.create.error), left, asked;
        }
        left := if reply.create.Err? then Some(reply.create.error) else None;
      }
      i := i + 1;
    }
    assert parts[..|parts|] == parts && replies[..|parts| - 1] == replies;
    WholePath(path);
    return Ok(()), left, asked;
  }

  lemma {:induction false} NothingAsked(replies: seq<ParentReply>)
    ensures LeftOver(replies[..0]) == Some(ErrNoNode)
  {
  }

  lemma {:induction false} NextAncestor(path: string, i: nat)
    requires 1 <= i < |Split(path, '/')|
    ensures Join(Split(path, '/')[..i + 1], '/') == Join(Split(path, '/')[..i], '/') + "/" + Split(path, '/')[i]
    ensures Ancestor(path, i) == Join(Split(path, '/')[..i + 1], '/')
  {
    hide Split;
    var parts := Split(path, '/');
    JoinSnoc(parts[..i], parts[i], '/');
    assert parts[..i] + [parts[i]] == parts[..i + 1];
  }

  lemma {:induction false} OneMoreReply(replies: seq<ParentReply>, i: nat)
    requires 1 <= i <= |replies|
    ensures LeftOver(replies[..i]) ==
            (if replies[i - 1].found == Ok(true) then None
             else if replies[i - 1].create.Err? then Some(replies[i - 1].create.error) else None)
  {
  }

  lemma {:induction false} WholePath(path: string)
    ensures Ancestor(path, |Split(path, '/')| - 1) == path
  {
    hide Split;
    var parts := Split(path, '/');
    assert parts[..|parts|] == parts;
    JoinSplit(path, '/');
  }

  lemma {:induction false} RootPart(path: string)
    requires path != "" && path[0] == '/'
    ensures |Split(path, '/')| > 1 && Split(path, '/')[0] == ""
    ensures Join(Split(path, '/')[..1], '/') == ""
  {
  }

  // ----- the waiting loop (zk/lock.go:90-131)

  /** This turn ends with the lock. */
  ghost predicate Wins(mine: int, round: Round)
  {
    round.children.Ok? && ScanSpec(round.children.value, mine, Lowest)
  }

  /** This turn leads to another one: an earlier node was there, and GetW found it
      gone or its watch fired without an error. */
  ghost predicate Retries(mine: int, round: Round)
  {
    && round.children.Ok?
    && (exists p :: ScanSpec(round.children.value, mine, Predecessor(p)))
    && (round.getW == Err(ErrNoNode) || (round.getW.Ok? && round.event.Ok?))
  }

  ghost predicate WinsAt(mine: int, rounds: seq<Round>, k: nat)
  {
    k < |rounds| && Wins(mine, rounds[k]) && forall j :: 0 <= j < k ==> Retries(mine, rounds[j])
  }

  /** This turn ends with the error of the first call that failed in it. */
  ghost predicate FailsWith(mine: int, round: Round, error: Error)
  {
    if round.children.Err? then error == round.children.error
    else
      || (ScanSpec(round.children.value, mine, Unparsable) && error == ErrSyntax)
      || ((exists p :: ScanSpec(round.children.value, mine, Predecessor(p))) &&
          ((round.getW.Err? && round.getW.error != ErrNoNode && error == round.getW.error) ||
           (round.getW.Ok? && round.event.Err? && error == round.event.error)))
  }

  ghost predicate FailsAt(mine: int, rounds: seq<Round>, k: nat, error: Error)
  {
    k < |rounds| && FailsWith(mine, rounds[k], error) && forall j :: 0 <= j < k ==> Retries(mine, rounds[j])
  }

  method Turn(mine: int, round: Round) returns (r: Outcome)
    ensures r.Acquired? <==> Wins(mine, round)
    ensures r.StillWaiting? <==> Retries(mine, round)
    ensures r.Failed? ==> FailsWith(mine, round, r.error)
  {
    if round.children.Err? {
      return Failed(round.children.error);
    }
    var scan := Scan(round.children.value, mine);
    ConclusionsExclude(round.children.value, mine, scan);
    match scan {
      case Unparsable =>
        return Failed(ErrSyntax);
      case Lowest =>
        return Acquired;
      case Predecessor(prev) =>
        if round.getW.Err? && round.getW.error != ErrNoNode {
          return Failed(round.getW.error);
        }
        if round.getW.Ok? && round.event.Err? {
          return Failed(round.event.error);
        }
        return StillWaiting;
    }
  }

  /** What decides a turn, said of the replies themselves. */
  lemma {:induction false} TurnMeans(mine: int, round: Round)
    ensures Wins(mine, round) <==>
              && round.children.Ok?
              && forall x :: x in round.children.value ==> ParseSeq(x).Some? && mine <= ParseSeq(x).value
    ensures Retries(mine, round) <==>
              && round.children.Ok? && (forall x :: x in round.children.value ==> ParseSeq(x).Some?)
              && (exists x :: x in round.children.value && ParseSeq(x).value < mine)
              && (round.getW == Err(ErrNoNode) || (round.getW.Ok? && round.event.Ok?))
    ensures round.children.Err? ==> forall e :: FailsWith(mine, round, e) <==> e == round.children.error
    ensures round.children.Ok? && (exists x :: x in round.children.value && ParseSeq(x).None?) ==>
              forall e :: FailsWith(mine, round, e) <==> e == ErrSyntax
    ensures round.children.Ok? && (forall x :: x in round.children.value ==> ParseSeq(x).Some?) ==>
              forall e :: FailsWith(mine, round, e) <==>
                && (exists x :: x in round.children.value && ParseSeq(x).value < mine)
                && ((round.getW == Err(e) && e != ErrNoNode) || (round.getW.Ok? && round.event == Err(e)))
  {
    hide ParseSeq;
    if round.children.Ok? {
      var children := round.children.value;
      MembersDecide(children, mine);
      if AllParse(children) && exists x :: x in children && ParseSeq(x).value < mine {
        var p := GreatestSmaller(children, mine);
      }
    }
  }

  lemma {:induction false} MembersDecide(children: seq<string>, mine: int)
    ensures AllParse(children) <==> forall x :: x in children ==> ParseSeq(x).Some?
    ensures ScanSpec(children, mine, Unparsable) <==> exists x :: x in children && ParseSeq(x).None?
    ensures ScanSpec(children, mine, Lowest) <==> forall x :: x in children ==> ParseSeq(x).Some? && mine <= ParseSeq(x).value
    ensures forall p :: ScanSpec(children, mine, Predecessor(p)) ==> AllParse(children) && p in children && ParseSeq(p).value < mine
  {
    hide ParseSeq;
    assert forall i :: 0 <= i < |children| ==> children[i] in children;
  }

  /** A listing with a smaller child has a predecessor to wait for. */
  lemma {:induction false} GreatestSmaller(children: seq<string>, mine: int) returns (p: string)
    requires AllParse(children) && exists x :: x in children && ParseSeq(x).value < mine
    ensures ScanSpec(children, mine, Predecessor(p))
  {
    hide ParseSeq;
    var last := children[|children| - 1];
    var front := children[..|children| - 1];
    assert children == front + [last];
    if exists x :: x in front && ParseSeq(x).value < mine {
      p := GreatestSmaller(front, mine);
      if ParseSeq(last).value < mine && ParseSeq(p).value < ParseSeq(last).value {
        p := last;
      }
    } else {
      p := last;
    }
  }

  // ----- creating the node (zk/lock.go:54-83)

  ghost predicate NeedsRetry(attempt: Attempt)
  {
    attempt.reply == Err(ErrNoNode) && forall k :: 0 <= k < |attempt.parents| ==> Built(attempt.parents[k])
  }

  ghost predicate CreatesAt(attempts: seq<Attempt>, k: nat, path: string)
  {
    k < 3 && k < |attempts| && attempts[k].reply == Ok(path) && forall j :: 0 <= j < k ==> NeedsRetry(attempts[j])
  }

  ghost predicate ParentFailsAt(parents: seq<ParentReply>, k: nat, error: Error)
  {
    k < |parents| && ParentError(parents[k]) == Some(error) && forall j :: 0 <= j < k ==> Built(parents[j])
  }

  /** Attempt k is the one whose error the create loop reports. */
  ghost predicate CreateFailsAt(attempts: seq<Attempt>, k: nat, error: Error)
  {
    && k < 3 && k < |attempts| && (forall j :: 0 <= j < k ==> NeedsRetry(attempts[j]))
    && attempts[k].reply.Err?
    && (if attempts[k].reply.error != ErrNoNode then error == attempts[k].reply.error
        else (exists m :: ParentFailsAt(attempts[k].parents, m, error)) ||
             (k == 2 && NeedsRetry(attempts[k]) && LeftOver(attempts[k].parents) == Some(error)))
  }

  /** The create loop ends without an error and with this path; after three
      retries that left no error behind, the path is still empty. */
  ghost predicate CreatedAs(attempts: seq<Attempt>, path: string)
    requires |attempts| == 3
  {
    || (exists k: nat :: CreatesAt(attempts, k, path))
    || (path == "" && (forall k :: 0 <= k < 3 ==> NeedsRetry(attempts[k])) && LeftOver(attempts[2].parents).None?)
  }

  /** Why Lock fails once the create loop ended with this path: its number cannot
      be read, or a turn of the waiting loop fails for that number. */
  ghost predicate LaterFails(path: string, rounds: seq<Round>, error: Error)
  {
    match ParseSeq(path)
    case None => error == ErrSyntax
    case Some(n) => exists k: nat :: FailsAt(n, rounds, k, error)
  }

  lemma {:induction false} RetryMeans(a: Attempt)
    ensures NeedsRetry(a) <==>
              && a.reply == Err(ErrNoNode)
              && forall m :: 0 <= m < |a.parents| ==>
                   a.parents[m].found.Ok? &&
                   (a.parents[m].found.value || a.parents[m].create.Ok? || a.parents[m].create == Err(ErrNodeExists))
    ensures NeedsRetry(a) ==>
              LeftOver(a.parents) == (if a.parents == [] then Some(ErrNoNode)
                                      else if !Last(a.parents).found.value && Last(a.parents).create.Err? then Some(ErrNodeExists)
                                      else None)
  {
    forall m | 0 <= m < |a.parents|
      ensures Built(a.parents[m]) <==>
                a.parents[m].found.Ok? &&
                (a.parents[m].found.value || a.parents[m].create.Ok? || a.parents[m].create == Err(ErrNodeExists))
    {
      BuiltMeans(a.parents[m]);
    }
  }

  /** Said of the replies themselves: the first k attempts found the directory
      missing, and every ancestor is there, made by the client or by somebody else. */
  ghost predicate SetUp(attempts: seq<Attempt>, k: nat)
    requires k <= |attempts|
  {
    forall j :: 0 <= j < k ==>
      && attempts[j].reply == Err(ErrNoNode)
      && forall m :: 0 <= m < |attempts[j].parents| ==>
           var a := attempts[j].parents[m];
           a.found.Ok? && (a.found.value || a.create.Ok? || a.create == Err(ErrNodeExists))
  }

  lemma {:induction false} SetUpMeans(attempts: seq<Attempt>, k: nat)
    requires k <= |attempts|
    ensures SetUp(attempts, k) <==> forall j :: 0 <= j < k ==> NeedsRetry(attempts[j])
  {
    hide NeedsRetry;
    forall j | 0 <= j < k
      ensures NeedsRetry(attempts[j]) <==>
                && attempts[j].reply == Err(ErrNoNode)
                && forall m :: 0 <= m < |attempts[j].parents| ==>
                     var a := attempts[j].parents[m];
                     a.found.Ok? && (a.found.value || a.create.Ok? || a.create == Err(ErrNodeExists))
    {
      RetryMeans(attempts[j]);
    }
  }

  /** The outcomes of the create loop in terms of SetUp. */
  lemma {:induction false} CreatesMeans(attempts: seq<Attempt>)
    requires |attempts| == 3
    ensures forall k, p :: 0 <= k < 3 && SetUp(attempts, k) && attempts[k].reply == Ok(p) ==> CreatesAt(attempts, k, p)
    ensures SetUp(attempts, 3) ==>
              && (forall k :: 0 <= k < 3 ==> NeedsRetry(attempts[k]))
              && LeftOver(attempts[2].parents) ==
                   (if attempts[2].parents == [] then Some(ErrNoNode)
                    else if Last(attempts[2].parents).found == Ok(false) && Last(attempts[2].parents).create.Err? then Some(ErrNodeExists)
                    else None)
  {
    hide NeedsRetry, LeftOver;
    forall k | 0 <= k <= 3 ensures SetUp(attempts, k) <==> forall j :: 0 <= j < k ==> NeedsRetry(attempts[j]) {
      SetUpMeans(attempts, k);
    }
    RetryMeans(attempts[2]);
  }

  lemma {:induction false} BuiltNeedsRetry(a: Attempt)
    requires a.reply == Err(ErrNoNode) && forall k :: 0 <= k < |a.parents| ==> Built(a.parents[k])
    ensures NeedsRetry(a)
  {
  }

  class Lock {
    const path: string
    var lockPath: string
    var number: int

    constructor (path: string)
      ensures this.path == path && lockPath == "" && number == 0
    {
      this.path := path;
      lockPath := "";
      number := 0;
    }

    /** The create loop: the path of the first attempt that succeeds, when every
        earlier one found the directory missing and could build it. */
    method CreateNode(attempts: seq<Attempt>) returns (r: Reply<string>)
      requires |attempts| == 3
      requires forall k :: 0 <= k < 3 ==> |attempts[k].parents| == |Split(path, '/')| - 1
      ensures r.Ok? ==> CreatedAs(attempts, r.value)
      ensures r.Ok? && r.value != "" ==> exists k :: CreatesAt(attempts, k, r.value)
      ensures forall k, p :: CreatesAt(attempts, k, p) ==> r == Ok(p)
      ensures r.Err? ==> exists k :: CreateFailsAt(attempts, k, r.error)
      ensures forall k, p :: 0 <= k < 3 && SetUp(attempts, k) && attempts[k].reply == Ok(p) ==> r == Ok(p)
      ensures SetUp(attempts, 3) ==>
                r == (if attempts[2].parents == [] then Err(ErrNoNode)
                      else if Last(attempts[2].parents).found == Ok(false) && Last(attempts[2].parents).create.Err? then Err(ErrNodeExists)
                      else Ok(""))
      ensures (forall k :: 0 <= k < 3 ==> NeedsRetry(attempts[k])) ==>
                r == (if LeftOver(attempts[2].parents).None? then Ok("") else Err(LeftOver(attempts[2].parents).value))
    {
      hide ParentError, Built, LeftOver, Split, Ancestor, SetUp;
      CreatesMeans(attempts);
      var left: Option<Error> := None;
      var i := 0;
      while i < 3
        invariant 0 <= i <= 3
        invariant i > 0 ==> left == LeftOver(attempts[i - 1].parents)
        invariant forall j :: 0 <= j < i ==> NeedsRetry(attempts[j])
      {
        match attempts[i].reply {
          case Err(ErrNoNode) =>
            var built, err, asked := EnsureParents(path, attempts[i].parents);
            left := err;
            if built.Err? {
              assert ParentFailsAt(attempts[i].parents, |asked| - 1, built.error);
              assert CreateFailsAt(attempts, i, built.error);
              return Err(built.error);
            }
            BuiltNeedsRetry(attempts[i]);
          case Ok(p) =>
            assert CreatesAt(attempts, i, p);
            return Ok(p);
          case Err(e) =>
            assert CreateFailsAt(attempts, i, e);
            return Err(e);
        }
        i := i + 1;
      }
      if left.Some? {
        assert CreateFailsAt(attempts, 2, left.value);
        return Err(left.value);
      }
      return Ok("");
    }

    /** The waiting loop, for as many turns as the script has. */
    method Await(mine: int, rounds: seq<Round>) returns (r: Outcome)
      ensures r.Acquired? ==> exists k :: WinsAt(mine, rounds, k)
      ensures r.Failed? ==> exists k :: FailsAt(mine, rounds, k, r.error)
      ensures r.StillWaiting? ==> forall j :: 0 <= j < |rounds| ==> Retries(mine, rounds[j])
    {
      hide Wins, Retries, FailsWith;
      var i := 0;
      while i < |rounds|
        invariant 0 <= i <= |rounds|
        invariant forall j :: 0 <= j < i ==> Retries(mine, rounds[j])
      {
        var turn := Turn(mine, rounds[i]);
        if !turn.StillWaiting? {
          assert if turn.Acquired? then WinsAt(mine, rounds, i) else FailsAt(mine, rounds, i, turn.error);
          return turn;
        }
        i := i + 1;
      }
      return StillWaiting;
    }

    /** Lock returns nil exactly when the node was created, its number was read
        from its name, and some listing showed no smaller one after turns that all
        ended in a retry; only then do the fields change. */
    method Acquire(attempts: seq<Attempt>, rounds: seq<Round>) returns (r: Outcome)
      requires |attempts| == 3
      requires forall k :: 0 <= k < 3 ==> |attempts[k].parents| == |Split(path, '/')| - 1
      modifies this
      ensures old(lockPath) != "" ==> r == Failed(ErrDeadlock)
      ensures !r.Acquired? ==> lockPath == old(lockPath) && number == old(number)
      ensures r.Failed? && old(lockPath) == "" ==>
                || (exists k: nat :: CreateFailsAt(attempts, k, r.error))
                || (exists p :: CreatedAs(attempts, p) && LaterFails(p, rounds, r.error))
      ensures r.StillWaiting? ==>
                exists p :: CreatedAs(attempts, p) && ParseSeq(p).Some? &&
                            forall j :: 0 <= j < |rounds| ==> Retries(ParseSeq(p).value, rounds[j])
      ensures r.Acquired? ==> exists k :: CreatesAt(attempts, k, lockPath)
      ensures r.Acquired? ==> ParseSeq(lockPath) == Some(number) && exists k :: WinsAt(number, rounds, k)
      ensures forall k, p, n, j ::
                old(lockPath) == "" && CreatesAt(attempts, k, p) && ParseSeq(p) == Some(n) && WinsAt(n, rounds, j)
                ==> r.Acquired? && lockPath == p && number == n
    {
      if lockPath != "" {
        return Failed(ErrDeadlock);
      }
      var created := CreateNode(attempts);
      if created.Err? {
        return Failed(created.error);
      }
      EmptyDoesNotParse();
      var mine := ParseSeq(created.value);
      if mine.None? {
        return Failed(ErrSyntax);
      }
      r := Await(mine.value, rounds);
      AwaitDecides(mine.value, rounds);
      if r.Acquired? {
        number := mine.value;
        lockPath := created.value;
      }
    }

    /** Unlock clears the fields exactly when the delete succeeds. */
    method Unlock(delete: Reply<()>) returns (r: Reply<()>)
      modifies this
      ensures old(lockPath) == "" ==> r == Err(ErrNotLocked)
      ensures old(lockPath) != "" ==> r == delete
      ensures r.Ok? ==> lockPath == "" && number == 0
      ensures r.Err? ==> lockPath == old(lockPath) && number == old(number)
    {
      if lockPath == "" {
        return Err(ErrNotLocked);
      }
      if delete.Err? {
        return delete;
      }
      lockPath := "";
      number := 0;
      return delete;
    }
  }

  lemma {:induction false} EmptyDoesNotParse()
    ensures ParseSeq("").None?
  {
  }

  lemma {:induction false} ConclusionsExclude(children: seq<string>, mine: int, r: ScanResult)
    requires ScanSpec(children, mine, r)
    ensures !r.Lowest? ==> !ScanSpec(children, mine, Lowest)
    ensures !r.Predecessor? ==> forall p :: !ScanSpec(children, mine, Predecessor(p))
  {
    if r.Predecessor? {
      var i :| 0 <= i < |children| && children[i] == r.name;
      assert ParseSeq(children[i]).value < mine;
    }
  }

  /** A turn that wins neither fails nor retries, and one that fails does not
      retry, so the three outcomes of the waiting loop exclude each other. */
  lemma {:induction false} AwaitDecides(mine: int, rounds: seq<Round>)
    ensures forall k, j, e :: !(WinsAt(mine, rounds, k) && FailsAt(mine, rounds, j, e))
    ensures (forall j :: 0 <= j < |rounds| ==> Retries(mine, rounds[j])) ==> forall k :: !WinsAt(mine, rounds, k)
  {
    hide Wins, Retries, FailsWith;
    forall j | 0 <= j < |rounds|
      ensures Wins(mine, rounds[j]) ==> !Retries(mine, rounds[j])
      ensures forall e :: FailsWith(mine, rounds[j], e) ==> !Wins(mine, rounds[j]) && !Retries(mine, rounds[j])
    {
      TurnDecides(mine, rounds[j]);
    }
  }

  lemma {:induction false} TurnDecides(mine: int, round: Round)
    ensures Wins(mine, round) ==> !Retries(mine, round)
    ensures forall e :: FailsWith(mine, round, e) ==> !Wins(mine, round) && !Retries(mine, round)
  {
    hide ScanSpec;
    forall r | round.children.Ok? && ScanSpec(round.children.value, mine, r)
      ensures !r.Lowest? ==> !ScanSpec(round.children.value, mine, Lowest)
      ensures !r.Predecessor? ==> forall p :: !ScanSpec(round.children.value, mine, Predecessor(p))
    {
      ConclusionsExclude(round.children.value, mine, r);
    }
  }
}
