/** The list updates the pages apply to their `events` and `members` state
    after a successful request: replace by id (`prev.map`), delete by id
    (`prev.filter`). `idOf` reads a record's `id`. */
module Lists {
  import opened Base

  /** `s.map(x => idOf(x) === id ? r : x)`: every record with the id is
      replaced by `r`; the others stay, in place. */
  function Replaced<T>(s: seq<T>, idOf: T -> Id, id: Id, r: T): (t: seq<T>)
    ensures |t| == |s|
    ensures forall i :: 0 <= i < |s| ==> t[i] == if idOf(s[i]) == id then r else s[i]
  {
    if s == [] then [] else [if idOf(s[0]) == id then r else s[0]] + Replaced(s[1..], idOf, id, r)
  }

  /** `s.filter(x => idOf(x) !== id)`: no record with the id is left, every
      other record is. */
  function Removed<T>(s: seq<T>, idOf: T -> Id, id: Id): (t: seq<T>)
    ensures |t| <= |s|
    ensures forall x :: x in t ==> x in s && idOf(x) != id
    ensures forall x :: x in s && idOf(x) != id ==> x in t
  {
    if s == [] then [] else (if idOf(s[0]) == id then [] else [s[0]]) + Removed(s[1..], idOf, id)
  }

  /** Deleting keeps the order of what is left: removing from a concatenation
      removes from each part. */
  lemma {:induction false} RemovedAppend<T>(a: seq<T>, b: seq<T>, idOf: T -> Id, id: Id)
    ensures Removed(a + b, idOf, id) == Removed(a, idOf, id) + Removed(b, idOf, id)
  {
    if a == [] {
      assert a + b == b;
    } else {
      assert (a + b)[1..] == a[1..] + b;
      RemovedAppend(a[1..], b, idOf, id);
    }
  }

  /** Deleting an id no record carries changes nothing. */
  lemma {:induction false} RemovedAbsent<T>(s: seq<T>, idOf: T -> Id, id: Id)
    requires forall i :: 0 <= i < |s| ==> idOf(s[i]) != id
    ensures Removed(s, idOf, id) == s
  {
    if s != [] {
      RemovedAbsent(s[1..], idOf, id);
    }
  }

  /** Replacing never changes the records that do not carry the id: after an
      edit whose response keeps the id, deleting that id gives what deleting
      it before the edit gave. */
  lemma {:induction false} RemovedReplaced<T>(s: seq<T>, idOf: T -> Id, id: Id, r: T)
    requires idOf(r) == id
    ensures Removed(Replaced(s, idOf, id, r), idOf, id) == Removed(s, idOf, id)
  {
    if s != [] {
      assert Replaced(s, idOf, id, r)[1..] == Replaced(s[1..], idOf, id, r);
      RemovedReplaced(s[1..], idOf, id, r);
    }
  }

  /** Replacing an id no record carries changes nothing. */
  lemma {:induction false} ReplacedAbsent<T>(s: seq<T>, idOf: T -> Id, id: Id, r: T)
    requires forall i :: 0 <= i < |s| ==> idOf(s[i]) != id
    ensures Replaced(s, idOf, id, r) == s
  {
    if s != [] {
      ReplacedAbsent(s[1..], idOf, id, r);
    }
  }

  /** Deleting the same id twice is deleting it once. */
  lemma RemovedIdempotent<T>(s: seq<T>, idOf: T -> Id, id: Id)
    ensures Removed(Removed(s, idOf, id), idOf, id) == Removed(s, idOf, id)
  {
    var t := Removed(s, idOf, id);
    forall i | 0 <= i < |t|
      ensures idOf(t[i]) != id
    {
      assert t[i] in t;
    }
    RemovedAbsent(t, idOf, id);
  }
}
