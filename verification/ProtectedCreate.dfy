/** CreateProtectedEphemeralSequential (zk/conn.go:1079-1122): a sequential create
    that survives a lost reply, because the node carries a GUID by which a retry can
    find it again. */
module ProtectedCreate {
  import opened Text
  import opened Errors
  import opened LockNames

  const GUID_LENGTH := 32

  // ----- names

  /** The protected form of a path: the last part gets the prefix and the GUID. */
  function ProtectedPath(path: string, guid: string): string
  {
    Protect(Split(path, '/'), guid)
  }

  function Protect(parts: seq<string>, guid: string): string
    requires parts != []
  {
    Join(parts[..|parts| - 1] + [PROTECTED_PREFIX + guid + "-" + Last(parts)], '/')
  }

  function RootPath(path: string): string
  {
    Parent(Split(path, '/'))
  }

  function Parent(parts: seq<string>): string
    requires parts != []
  {
    if |parts| == 1 then "" else Join(parts[..|parts| - 1], '/')
  }

  /** For a lock directory, the path sent to the server plus the counter it
      appends is the directory plus the child name that parseSeq reads. */
  lemma {:induction false} ProtectedLockPath(dir: string, guid: string, n: int)
    ensures RootPath(dir + "/lock-") == dir
    ensures ProtectedPath(dir + "/lock-", guid) + FormatSequence(n) == dir + "/" + NodeName(guid, n)
  {
    var parts := Split(dir, '/');
    SplitFree("lock-", '/');
    SplitAt(dir, '/', "lock-");
    assert dir + "/lock-" == dir + ['/'] + "lock-";
    JoinSplit(dir, '/');
    ProtectedParts(parts, guid, n);
  }

  lemma {:induction false} ProtectedParts(parts: seq<string>, guid: string, n: int)
    requires parts != []
    ensures Parent(parts + ["lock-"]) == Join(parts, '/')
    ensures Protect(parts + ["lock-"], guid) + FormatSequence(n) == Join(parts, '/') + "/" + NodeName(guid, n)
  {
    var leaf := PROTECTED_PREFIX + guid + "-" + "lock-";
    assert (parts + ["lock-"])[..|parts|] == parts;
    JoinSnoc(parts, leaf, '/');
    Reassociate(Join(parts, '/'), PROTECTED_PREFIX + guid, FormatSequence(n));
  }

  lemma {:induction false} Reassociate(dir: string, head: string, number: string)
    ensures dir + ['/'] + (head + "-" + "lock-") + number == dir + "/" + (head + "-lock-" + number)
  {
  }

  // ----- the search through a listing

  function Leaf(child: string): string { Last(Split(child, '/')) }

  predicate Prefixed(child: string) { PROTECTED_PREFIX <= Leaf(child) }

  /** The slice Leaf[3:35] is out of range. */
  predicate TooShort(child: string) { Prefixed(child) && |Leaf(child)| < 3 + GUID_LENGTH }

  predicate Carries(child: string, guid: string)
  {
    Prefixed(child) && !TooShort(child) && Leaf(child)[3..3 + GUID_LENGTH] == guid
  }

  datatype Search = Found(child: string) | NotFound | SliceOutOfRange

  /** The search goes no further than such a child. */
  predicate Stops(child: string, guid: string) { TooShort(child) || Carries(child, guid) }

  predicate FirstStop(children: seq<string>, guid: string, i: nat)
  {
    i < |children| && Stops(children[i], guid) && forall j :: 0 <= j < i ==> !Stops(children[j], guid)
  }

  /** The first child that stops the search decides it: a protected name too short
      to hold a GUID panics, a carrier is found. */
  ghost predicate SearchIs(children: seq<string>, guid: string, r: Search)
  {
    match r
    case Found(child) => exists i: nat :: FirstStop(children, guid, i) && children[i] == child && Carries(child, guid)
    case SliceOutOfRange => exists i: nat :: FirstStop(children, guid, i) && TooShort(children[i])
    case NotFound => forall x :: x in children ==> !Stops(x, guid)
  }

  lemma {:induction false} SearchUnique(children: seq<string>, guid: string, r1: Search, r2: Search)
    requires SearchIs(children, guid, r1) && SearchIs(children, guid, r2)
    ensures r1 == r2
  {
    hide Carries, TooShort;
    if !r1.NotFound? && !r2.NotFound? {
      var i: nat :| FirstStop(children, guid, i) && (r1.Found? ==> children[i] == r1.child && Carries(r1.child, guid))
                && (r1.SliceOutOfRange? ==> TooShort(children[i]));
      var j: nat :| FirstStop(children, guid, j) && (r2.Found? ==> children[j] == r2.child && Carries(r2.child, guid))
                && (r2.SliceOutOfRange? ==> TooShort(children[j]));
      assert i == j;
      CarriesIsLong(children[i], guid);
    }
  }

  lemma {:induction false} CarriesIsLong(child: string, guid: string)
    ensures Carries(child, guid) ==> !TooShort(child)
  {
  }

  /** The same two children, a short protected name and a carrier: which comes
      first decides between a panic and a find. */
  lemma {:induction false} OrderDecides(short: string, carrier: string, guid: string)
    requires TooShort(short) && Carries(carrier, guid)
    ensures TooShort(PROTECTED_PREFIX)
    ensures SearchIs([short, carrier], guid, SliceOutOfRange)
    ensures SearchIs([carrier, short], guid, Found(carrier))
  {
    hide Carries;
    SplitFree(PROTECTED_PREFIX, '/');
    assert FirstStop([short, carrier], guid, 0);
    assert FirstStop([carrier, short], guid, 0);
  }

  method FindGuid(children: seq<string>, guid: string) returns (r: Search)
    ensures SearchIs(children, guid, r)
  {
    hide Carries, TooShort;
    var i := 0;
    while i < |children|
      invariant 0 <= i <= |children|
      invariant forall j :: 0 <= j < i ==> !Stops(children[j], guid)
    {
      var probe := Probe(children[i], guid);
      if !probe.NotFound? {
        assert FirstStop(children, guid, i);
        return probe;
      }
      i := i + 1;
    }
    return NotFound;
  }

  method Probe(child: string, guid: string) returns (r: Search)
    ensures r == if TooShort(child) then SliceOutOfRange else if Carries(child, guid) then Found(child) else NotFound
  {
    var name := Leaf(child);
    if PROTECTED_PREFIX <= name {
      if |name| < 3 + GUID_LENGTH {
        return SliceOutOfRange;
      }
      if name[3..3 + GUID_LENGTH] == guid {
        return Found(child);
      }
    }
    return NotFound;
  }

  // ----- the names that the server gives

  /** A protected lock node is its own last part, and its GUID is what stands
      behind the prefix. */
  lemma {:induction false} ServerName(guid: string, n: int)
    requires |guid| == 32 && '/' !in guid && -INT32_LIMIT <= n < INT32_LIMIT
    ensures NodeName(guid, n) == "_c_" + guid + "-lock-" + FormatSequence(n)
    ensures Leaf(NodeName(guid, n)) == NodeName(guid, n)
    ensures |NodeName(guid, n)| >= 35 && NodeName(guid, n)[..3] == "_c_" && NodeName(guid, n)[3..35] == guid
  {
    SuffixFree(n);
    SplitFree(NodeName(guid, n), '/');
  }

  /** A search for a GUID of 32 characters finds exactly the nodes created with it. */
  lemma {:induction false} ServerNameCarries(guid: string, g: string, n: int)
    requires |guid| == 32 && '/' !in guid && |g| == 32 && '/' !in g && -INT32_LIMIT <= n < INT32_LIMIT
    ensures Carries(NodeName(g, n), guid) <==> g == guid
    ensures !TooShort(NodeName(g, n))
  {
    ServerName(g, n);
  }

  /** A protected name that is too short to hold 32 characters of a GUID. */
  lemma {:induction false} TooShortMeans(child: string)
    ensures TooShort(child) <==> "_c_" <= Last(Split(child, '/')) && |Last(Split(child, '/'))| < 35
  {
  }

  lemma {:induction false} CarriesMeans(child: string, guid: string)
    ensures Carries(child, guid) <==>
              var leaf := Last(Split(child, '/')); |leaf| >= 35 && leaf[..3] == "_c_" && leaf[3..35] == guid
  {
    var leaf := Last(Split(child, '/'));
    assert "_c_" <= leaf <==> |leaf| >= 3 && leaf[..3] == "_c_";
  }

  /** A name given by the server to some client's protected create of a lock. */
  ghost predicate ServerGave(child: string)
  {
    exists g: string, n: int :: |g| == 32 && '/' !in g && -INT32_LIMIT <= n < INT32_LIMIT && child == NodeName(g, n)
  }

  /** In a lock directory the search finds the client's node wherever it stands. */
  lemma {:induction false} SearchFindsOwn(children: seq<string>, guid: string, n: int)
    requires |guid| == 32 && '/' !in guid && -INT32_LIMIT <= n < INT32_LIMIT && NodeName(guid, n) in children
    requires forall x :: x in children ==> ServerGave(x) && (Carries(x, guid) ==> x == NodeName(guid, n))
    ensures SearchIs(children, guid, Found(NodeName(guid, n)))
  {
    hide NodeName, SearchIs, Carries, TooShort;
    ServerNameCarries(guid, guid, n);
    forall x | x in children ensures Stops(x, guid) ==> x == NodeName(guid, n) {
      var g: string, m: int :| |g| == 32 && '/' !in g && -INT32_LIMIT <= m < INT32_LIMIT && x == NodeName(g, m);
      ServerNameCarries(guid, g, m);
    }
    FirstOf(children, guid, NodeName(guid, n));
  }

  lemma {:induction false} FirstOf(children: seq<string>, guid: string, name: string)
    requires name in children && Carries(name, guid)
    requires forall x :: x in children ==> (Stops(x, guid) ==> x == name)
    ensures SearchIs(children, guid, Found(name))
  {
    hide Carries, TooShort;
    var i := LeastIndex(children, name);
    assert FirstStop(children, guid, i);
  }

  lemma {:induction false} LeastIndex(children: seq<string>, name: string) returns (i: nat)
    requires name in children
    ensures i < |children| && children[i] == name && forall j :: 0 <= j < i ==> children[j] != name
  {
    if children[0] == name {
      i := 0;
    } else {
      i := LeastIndex(children[1..], name);
      i := i + 1;
    }
  }

  // ----- the retry loop

  /** One attempt as the client sees it (the reply, and the listing made after
      ErrConnectionClosed) and as the server does: the node it created before that
      listing, whether the session and its nodes were lost, and a node that the same
      request creates only after the listing. */
  datatype Attempt = Attempt(reply: Reply<string>, listing: Reply<seq<string>>,
                             effect: Option<string>, lost: bool, late: Option<string>)

  datatype Outcome = Created(path: string) | Failed(error: Error) | Panics

  function AsSet(o: Option<string>): set<string>
  {
    if o.Some? then {o.value} else {}
  }

  /** The live nodes carrying the GUID when the attempt's listing is made. */
  function AtListing(mine: set<string>, a: Attempt): set<string>
  {
    if a.lost then {} else mine + AsSet(a.effect)
  }

  /** The live nodes carrying the GUID after the first k attempts. */
  function Mine(attempts: seq<Attempt>, k: nat): set<string>
    requires k <= |attempts|
  {
    if k == 0 then {} else AtListing(Mine(attempts, k - 1), attempts[k - 1]) + AsSet(attempts[k - 1].late)
  }

  /** What the server guarantees about an attempt. */
  ghost predicate Honest(root: string, carries: string -> bool, mine: set<string>, a: Attempt)
  {
    && (a.effect.Some? ==> carries(a.effect.value) && a.effect.value !in mine)
    && (a.late.Some? ==> carries(a.late.value) && a.effect.None? && a.late.value !in AtListing(mine, a))
    && (a.reply.Ok? ==> a.effect.Some? && a.late.None? && a.reply.value == root + "/" + a.effect.value)
    && (a.reply == Err(ErrSessionExpired) ==> a.lost && a.late.None?)
    && (a.reply == Err(ErrConnectionClosed) && a.listing.Ok? ==>
          forall x :: carries(x) ==> (x in a.listing.value <==> x in AtListing(mine, a)))
  }

  ghost predicate HonestRun(root: string, carries: string -> bool, attempts: seq<Attempt>, n: nat)
    requires n <= |attempts|
  {
    n > 0 ==> HonestRun(root, carries, attempts, n - 1) && Honest(root, carries, Mine(attempts, n - 1), attempts[n - 1])
  }

  /** The names that carry a GUID, as a predicate of its own. */
  function Bearing(guid: string): string -> bool
  {
    x => Carries(x, guid)
  }

  /** A request whose reply was lost took effect before the listing, or never will. */
  ghost predicate Timely(attempts: seq<Attempt>, n: nat)
    requires n <= |attempts|
  {
    forall k :: 0 <= k < n ==> attempts[k].late.None?
  }

  /** At no point of the first n attempts do two live nodes carry the GUID. */
  ghost predicate AtMostOne(attempts: seq<Attempt>, n: nat)
    requires n <= |attempts|
  {
    forall k, x, y :: 0 <= k <= n && x in Mine(attempts, k) && y in Mine(attempts, k) ==> x == y
  }

  /** The attempt leads to another one. */
  ghost predicate Retried(guid: string, a: Attempt)
  {
    a.reply == Err(ErrSessionExpired) || Searched(guid, a, NotFound)
  }

  /** The reply was lost and the search through the listing ended like this. */
  ghost predicate Searched(guid: string, a: Attempt, r: Search)
  {
    a.reply == Err(ErrConnectionClosed) && a.listing.Ok? && SearchIs(a.listing.value, guid, r)
  }

  /** What the call returns after `used` attempts. */
  ghost predicate Returns(path: string, guid: string, attempts: seq<Attempt>, used: nat, r: Outcome)
    requires 1 <= used <= |attempts|
  {
    && (forall k :: 0 <= k < used - 1 ==> Retried(guid, attempts[k]))
    && var a := attempts[used - 1];
       match r
       case Created(p) =>
         || a.reply == Ok(p)
         || exists x :: Searched(guid, a, Found(x)) && p == RootPath(path) + "/" + x
       case Failed(e) =>
         || (a.reply == Err(e) && e != ErrSessionExpired && e != ErrConnectionClosed)
         || (a.reply == Err(ErrConnectionClosed) && a.listing == Err(e))
         || (a.reply == Err(e) && Retried(guid, a) && used == 3)
       case Panics =>
         Searched(guid, a, SliceOutOfRange)
  }

  /** The replies decide the result. */
  lemma {:induction false} ReturnsDecides(path: string, guid: string, attempts: seq<Attempt>, n1: nat, r1: Outcome, n2: nat, r2: Outcome)
    requires |attempts| == 3 && 1 <= n1 <= 3 && 1 <= n2 <= 3
    requires Returns(path, guid, attempts, n1, r1) && Returns(path, guid, attempts, n2, r2)
    ensures n1 == n2 && r1 == r2
  {
    hide SearchIs;
    var a, b := attempts[n1 - 1], attempts[n2 - 1];
    SearchesAgree(guid, a);
    SearchesAgree(guid, b);
    assert n1 < n2 ==> Retried(guid, a);
    assert n2 < n1 ==> Retried(guid, b);
  }

  lemma {:induction false} SearchesAgree(guid: string, a: Attempt)
    ensures forall r1, r2 :: Searched(guid, a, r1) && Searched(guid, a, r2) ==> r1 == r2
  {
    hide SearchIs;
    forall r1, r2 | Searched(guid, a, r1) && Searched(guid, a, r2) ensures r1 == r2 {
      SearchUnique(a.listing.value, guid, r1, r2);
    }
  }

  /** The call panics if and only if an attempt reached by retries alone loses its
      reply and the first child that stops its search is too short. */
  lemma {:induction false} PanicsExactly(path: string, guid: string, attempts: seq<Attempt>, used: nat, r: Outcome)
    requires |attempts| == 3 && 1 <= used <= 3 && Returns(path, guid, attempts, used, r)
    ensures r.Panics? <==> exists k: nat :: PanicsAt(guid, attempts, k)
  {
    hide SearchIs;
    if r.Panics? {
      assert PanicsAt(guid, attempts, used - 1);
    }
    if exists k: nat :: PanicsAt(guid, attempts, k) {
      var k: nat :| PanicsAt(guid, attempts, k);
      assert Returns(path, guid, attempts, k + 1, Panics);
      ReturnsDecides(path, guid, attempts, used, r, k + 1, Panics);
    }
  }

  ghost predicate PanicsAt(guid: string, attempts: seq<Attempt>, k: nat)
  {
    && k < |attempts| && (forall j :: 0 <= j < k ==> Retried(guid, attempts[j]))
    && Searched(guid, attempts[k], SliceOutOfRange)
  }

  method Create(path: string, guid: string, attempts: seq<Attempt>) returns (r: Outcome, used: nat)
    requires |attempts| == 3
    ensures 1 <= used <= 3 && Returns(path, guid, attempts, used, r)
  {
    var i := 0;
    var lastError := ErrConnectionClosed;
    while i < 3
      invariant 0 <= i <= 3
      invariant forall k :: 0 <= k < i ==> Retried(guid, attempts[k])
      invariant i > 0 ==> attempts[i - 1].reply == Err(lastError)
    {
      var a := attempts[i];
      match a.reply {
        case Err(ErrSessionExpired) =>
          lastError := ErrSessionExpired;
        case Err(ErrConnectionClosed) =>
          if a.listing.Err? {
            return Failed(a.listing.error), i + 1;
          }
          var search := FindGuid(a.listing.value, guid);
          match search {
            case Found(child) => return Created(RootPath(path) + "/" + child), i + 1;
            case SliceOutOfRange => return Panics, i + 1;
            case NotFound => lastError := ErrConnectionClosed;
          }
        case Ok(p) =>
          return Created(p), i + 1;
        case Err(e) =>
          return Failed(e), i + 1;
      }
      i := i + 1;
    }
    return Failed(lastError), 3;
  }

  /** The results that need no search: success, an error that is final, a failed
      listing, and a session that expired each time. */
  lemma {:induction false} PlainResults(path: string, guid: string, attempts: seq<Attempt>, k: nat)
    requires |attempts| == 3 && k < 3 && forall j :: 0 <= j < k ==> attempts[j].reply == Err(ErrSessionExpired)
    ensures forall p :: attempts[k].reply == Ok(p) ==> Returns(path, guid, attempts, k + 1, Created(p))
    ensures forall e :: attempts[k].reply == Err(e) && e != ErrSessionExpired && e != ErrConnectionClosed ==>
              Returns(path, guid, attempts, k + 1, Failed(e))
    ensures forall e :: attempts[k].reply == Err(ErrConnectionClosed) && attempts[k].listing == Err(e) ==>
              Returns(path, guid, attempts, k + 1, Failed(e))
    ensures k == 2 && attempts[2].reply == Err(ErrSessionExpired) ==> Returns(path, guid, attempts, 3, Failed(ErrSessionExpired))
  {
    hide SearchIs;
    assert forall j :: 0 <= j < k ==> Retried(guid, attempts[j]);
  }

  /** Three lost replies and no trace of a node: the last error is returned. */
  lemma {:induction false} LostThreeTimes(path: string, guid: string, attempts: seq<Attempt>)
    requires |attempts| == 3
    requires forall j :: 0 <= j < 3 ==> attempts[j].reply == Err(ErrConnectionClosed) && attempts[j].listing == Ok([])
    ensures Returns(path, guid, attempts, 3, Failed(ErrConnectionClosed))
  {
    hide Carries, TooShort;
    assert forall j :: 0 <= j < 3 ==> Searched(guid, attempts[j], NotFound);
  }

  /** A lost reply whose node is in a current listing of a lock directory is found
      at once, and the call names that node. */
  lemma {:induction false} LostReplyIsFound(path: string, guid: string, n: int, attempts: seq<Attempt>)
    requires |attempts| == 3 && attempts[0].reply == Err(ErrConnectionClosed) && attempts[0].listing.Ok?
    requires |guid| == 32 && '/' !in guid && -INT32_LIMIT <= n < INT32_LIMIT
    requires var children := attempts[0].listing.value;
             && NodeName(guid, n) in children
             && forall x :: x in children ==> ServerGave(x) && (Carries(x, guid) ==> x == NodeName(guid, n))
    ensures Returns(path, guid, attempts, 1, Created(RootPath(path) + "/" + NodeName(guid, n)))
  {
    hide NodeName, SearchIs, Carries, ServerGave, RootPath;
    SearchFindsOwn(attempts[0].listing.value, guid, n);
    assert Searched(guid, attempts[0], Found(NodeName(guid, n)));
  }

  lemma {:induction false} RetriedLeavesNothing(root: string, carries: string -> bool, a: Attempt)
    requires Honest(root, carries, {}, a) && Unseen(carries, a)
    ensures AtListing({}, a) == {}
  {
  }

  /** Retried, in terms of a listing without the GUID. */
  predicate Unseen(carries: string -> bool, a: Attempt)
  {
    || a.reply == Err(ErrSessionExpired)
    || (a.reply == Err(ErrConnectionClosed) && a.listing.Ok? && forall x :: x in a.listing.value ==> !carries(x))
  }

  /** After attempts that were retried nothing carrying the GUID is left. */
  lemma {:induction false} NothingLeft(root: string, carries: string -> bool, attempts: seq<Attempt>, n: nat)
    requires n <= |attempts| && HonestRun(root, carries, attempts, n) && Timely(attempts, n)
    requires forall k :: 0 <= k < n ==> Unseen(carries, attempts[k])
    ensures forall k :: 0 <= k <= n ==> Mine(attempts, k) == {}
  {
    if n > 0 {
      NothingLeft(root, carries, attempts, n - 1);
      RetriedLeavesNothing(root, carries, attempts[n - 1]);
    }
  }

  /** Before the attempt that decides the call there is nothing, after it at most
      the one node it created. */
  lemma {:induction false} OneEffect(root: string, carries: string -> bool, attempts: seq<Attempt>, used: nat)
    requires 1 <= used <= |attempts| && HonestRun(root, carries, attempts, used) && Timely(attempts, used)
    requires forall k :: 0 <= k < used - 1 ==> Unseen(carries, attempts[k])
    ensures AtMostOne(attempts, used)
    ensures Honest(root, carries, {}, attempts[used - 1])
    ensures Mine(attempts, used) == AtListing({}, attempts[used - 1])
  {
    NothingLeft(root, carries, attempts, used - 1);
  }

  /** Protected create is at most once: whatever the call returns, at no point do
      two live nodes carry its GUID, and a nil error names the one that does. */
  lemma {:induction false} AtMostOnce(path: string, guid: string, attempts: seq<Attempt>, used: nat, r: Outcome)
    requires 1 <= used <= |attempts| && Returns(path, guid, attempts, used, r)
    requires HonestRun(RootPath(path), Bearing(guid), attempts, used) && Timely(attempts, used)
    ensures AtMostOne(attempts, used)
    ensures r.Created? ==>
              exists name :: r.path == RootPath(path) + "/" + name && Carries(name, guid)
                             && Mine(attempts, used) == (if attempts[used - 1].lost then {} else {name})
  {
    var root, a := RootPath(path), attempts[used - 1];
    OneEffect(root, Bearing(guid), attempts, used);
    if r.Created? {
      var name :| Bearing(guid)(name) && r.path == root + "/" + name && (a.reply == Ok(r.path) || Searched(guid, a, Found(name)));
      OwnEffect(root, Bearing(guid), a, name);
    }
  }

  /** The node a successful call names is the one its last attempt left. */
  lemma {:induction false} OwnEffect(root: string, carries: string -> bool, a: Attempt, name: string)
    requires Honest(root, carries, {}, a) && carries(name)
    requires a.reply == Ok(root + "/" + name)
             || (a.reply == Err(ErrConnectionClosed) && a.listing.Ok? && name in a.listing.value)
    ensures AtListing({}, a) == if a.lost then {} else {name}
  {
    if a.reply.Ok? {
      assert (root + "/" + name)[|root| + 1..] == name;
      assert (root + "/" + a.effect.value)[|root| + 1..] == a.effect.value;
    }
  }

  /** A retried attempt leaves only what its own request creates late: the search
      would have found anything else. */
  lemma {:induction false} OnlyLateLeft(root: string, carries: string -> bool, attempts: seq<Attempt>, n: nat)
    requires 1 <= n <= |attempts| && HonestRun(root, carries, attempts, n)
    requires forall k :: 0 <= k < n ==> Unseen(carries, attempts[k])
    ensures Mine(attempts, n) == AsSet(attempts[n - 1].late)
  {
    if n > 1 {
      OnlyLateLeft(root, carries, attempts, n - 1);
    }
    var mine, a := Mine(attempts, n - 1), attempts[n - 1];
    assert forall x :: x in AtListing(mine, a) ==> carries(x);
    assert AtListing(mine, a) == {};
  }

  /** The last attempt but one took effect after its listing, and the last one
      creates a node in the same session. */
  predicate LateMeets(attempts: seq<Attempt>, used: nat)
    requires 1 <= used <= |attempts|
  {
    && used >= 2 && attempts[used - 2].late.Some?
    && !attempts[used - 1].lost && (attempts[used - 1].effect.Some? || attempts[used - 1].late.Some?)
  }

  /** Two live nodes carry the GUID at some point of a call if and only if a late
      effect meets the effect of the attempt after it. */
  lemma {:induction false} AtMostOnceExactly(root: string, carries: string -> bool, attempts: seq<Attempt>, used: nat)
    requires 1 <= used <= |attempts| && HonestRun(root, carries, attempts, used)
    requires forall k :: 0 <= k < used - 1 ==> Unseen(carries, attempts[k])
    ensures AtMostOne(attempts, used) <==> !LateMeets(attempts, used)
  {
    var mine, a := Mine(attempts, used - 1), attempts[used - 1];
    assert mine == if used >= 2 then AsSet(attempts[used - 2].late) else {} by {
      if used >= 2 {
        ShorterRun(root, carries, attempts, used);
        OnlyLateLeft(root, carries, attempts, used - 1);
      }
    }
    assert Mine(attempts, used) == AtListing(mine, a) + AsSet(a.late);
    if LateMeets(attempts, used) {
      var x := attempts[used - 2].late.value;
      var y := if a.effect.Some? then a.effect.value else a.late.value;
      assert x in Mine(attempts, used) && y in Mine(attempts, used) && x != y;
    } else {
      forall k, x, y | 0 <= k <= used && x in Mine(attempts, k) && y in Mine(attempts, k) ensures x == y {
        if 0 < k < used {
          RunPrefix(root, carries, attempts, used, k);
          OnlyLateLeft(root, carries, attempts, k);
        }
      }
    }
  }

  lemma {:induction false} ShorterRun(root: string, carries: string -> bool, attempts: seq<Attempt>, n: nat)
    requires 1 <= n <= |attempts| && HonestRun(root, carries, attempts, n)
    ensures HonestRun(root, carries, attempts, n - 1)
  {
  }

  lemma {:induction false} RunPrefix(root: string, carries: string -> bool, attempts: seq<Attempt>, n: nat, k: nat)
    requires k <= n <= |attempts| && HonestRun(root, carries, attempts, n)
    ensures HonestRun(root, carries, attempts, k)
  {
    if k < n {
      ShorterRun(root, carries, attempts, n);
      RunPrefix(root, carries, attempts, n - 1, k);
    }
  }

  /** That can happen: a first request that lands only after the listing
      and a second one that succeeds leave two live nodes with one GUID. */
  lemma {:induction false} LateEffectDuplicates(path: string, guid: string, name1: string, name2: string)
    requires Carries(name1, guid) && Carries(name2, guid) && name1 != name2
    ensures var attempts := [
                Attempt(Err(ErrConnectionClosed), Ok([]), None, false, Some(name1)),
                Attempt(Ok(RootPath(path) + "/" + name2), Ok([]), Some(name2), false, None)];
            HonestRun(RootPath(path), Bearing(guid), attempts, 2) && !AtMostOne(attempts, 2)
  {
    var attempts := [
      Attempt(Err(ErrConnectionClosed), Ok([]), None, false, Some(name1)),
      Attempt(Ok(RootPath(path) + "/" + name2), Ok([]), Some(name2), false, None)];
    assert Mine(attempts, 1) == {name1};
    assert Mine(attempts, 2) == {name1, name2};
  }
}
