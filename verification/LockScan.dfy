/** The predecessor scan of the lock recipe (zk/lock.go:96-116). */
module LockScan {
  import opened Text
  import opened LockNames

  datatype ScanResult = Unparsable | Lowest | Predecessor(name: string)

  /** What one pass over a listing must conclude for a client holding number
      `mine`: an unparsable child is an error; otherwise the client is lowest
      exactly when no child is smaller, and its predecessor is the greatest
      smaller child. */
  ghost predicate ScanSpec(children: seq<string>, mine: int, r: ScanResult)
  {
    match r
    case Unparsable =>
      exists i :: 0 <= i < |children| && ParseSeq(children[i]).None?
    case Lowest =>
      && AllParse(children)
      && forall i :: 0 <= i < |children| ==> mine <= ParseSeq(children[i]).value
    case Predecessor(p) =>
      && AllParse(children)
      && p in children
      && ParseSeq(p).value < mine
      && forall i :: 0 <= i < |children| ==>
           (ParseSeq(children[i]).value < mine ==> ParseSeq(children[i]).value <= ParseSeq(p).value)
  }

  ghost predicate AllParse(children: seq<string>)
  {
    forall i :: 0 <= i < |children| ==> ParseSeq(children[i]).Some?
  }

  /** The scan loop, with the source's three running variables. */
  method Scan(children: seq<string>, mine: int) returns (r: ScanResult)
    ensures ScanSpec(children, mine, r)
  {
    var lowestSeq := mine;
    var prevSeq := -1;
    var prevSeqPath := "";
    var i := 0;
    while i < |children|
      invariant 0 <= i <= |children|
      invariant forall k :: 0 <= k < i ==> ParseSeq(children[k]).Some?
      invariant lowestSeq <= mine
      invariant forall k :: 0 <= k < i ==> lowestSeq <= ParseSeq(children[k]).value
      invariant lowestSeq < mine ==> 0 <= prevSeq
      invariant prevSeq == -1 || (prevSeqPath in children && ParseSeq(prevSeqPath) == Some(prevSeq) && prevSeq < mine)
      invariant prevSeq >= -1
      invariant forall k :: 0 <= k < i && ParseSeq(children[k]).value < mine ==> ParseSeq(children[k]).value <= prevSeq
    {
      var s := ParseSeq(children[i]);
      if s.None? {
        return Unparsable;
      }
      if s.value < lowestSeq {
        lowestSeq := s.value;
      }
      if s.value < mine && s.value > prevSeq {
        prevSeq := s.value;
        prevSeqPath := children[i];
      }
      i := i + 1;
    }
    if mine == lowestSeq {
      return Lowest;
    }
    return Predecessor(prevSeqPath);
  }

  /** The three conclusions exclude each other, and among children with
      distinct numbers the conclusion is unique. */
  lemma {:induction false} ScanUnique(children: seq<string>, mine: int, r1: ScanResult, r2: ScanResult)
    requires ScanSpec(children, mine, r1) && ScanSpec(children, mine, r2)
    requires forall x, y :: x in children && y in children && ParseSeq(x) == ParseSeq(y) ==> x == y
    ensures r1 == r2
  {
    if r1.Predecessor? {
      var i :| 0 <= i < |children| && children[i] == r1.name;
      assert !r2.Lowest? && !r2.Unparsable?;
      var j :| 0 <= j < |children| && children[j] == r2.name;
      assert ParseSeq(r1.name).value == ParseSeq(r2.name).value;
    }
  }
}
