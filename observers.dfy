/** The subject side of the observer pattern: an ordered list of observer handles that an
    entity signals, without payload, whenever its state may have changed. */
module Observers {

  /** A `std::shared_ptr<Observer>`: empty, or an observer identified by its address. */
  datatype Handle = Null | Observer(id: nat)

  predicate NoDuplicates(s: seq<Handle>)
  {
    forall i, j :: 0 <= i < j < |s| ==> s[i] != s[j]
  }

  /** Subject::attach on the list: `o` is appended unless it is already there. */
  function Attached(s: seq<Handle>, o: Handle): (r: seq<Handle>)
    ensures o in r && |s| <= |r| <= |s| + 1
    ensures r[..|s|] == s
    ensures forall h :: h in r <==> h in s || h == o
    ensures NoDuplicates(s) ==> NoDuplicates(r)
  {
    if o in s then s else s + [o]
  }

  /** Attaching the same observer twice is the same as attaching it once. */
  lemma AttachIdempotent(s: seq<Handle>, o: Handle)
    ensures Attached(Attached(s, o), o) == Attached(s, o)
  {
  }

  /** Subject::detach on the list (`std::erase`): every occurrence of `o` is dropped and the
      other handles keep their order. */
  function Detached(s: seq<Handle>, o: Handle): (r: seq<Handle>)
    ensures |r| <= |s|
    ensures forall h :: h in r <==> h in s && h != o
    ensures o !in s ==> r == s
    ensures NoDuplicates(s) ==> NoDuplicates(r)
  {
    if s == [] then []
    else
      var init, last := s[..|s| - 1], s[|s| - 1];
      var rest := Detached(init, o);
      assert s == init + [last];
      assert NoDuplicates(s) ==> NoDuplicates(init) && last !in init && last !in rest;
      if last == o then rest else rest + [last]
  }

  /** Detaching works element by element: detaching from a concatenation concatenates the
      results, so the relative order of the survivors is that of the original list. */
  lemma {:induction false} DetachedAppend(s: seq<Handle>, t: seq<Handle>, o: Handle)
    ensures Detached(s + t, o) == Detached(s, o) + Detached(t, o)
    decreases |t|
  {
    if t == [] {
      assert s + t == s;
    } else {
      var t', x := t[..|t| - 1], t[|t| - 1];
      var tail := if x == o then [] else [x];
      calc {
        Detached(s + t, o);
        { assert s + t == (s + t') + [x]; DetachedSnoc(s + t', x, o); }
        Detached(s + t', o) + tail;
        { DetachedAppend(s, t', o); }
        Detached(s, o) + Detached(t', o) + tail;
        { assert t == t' + [x]; DetachedSnoc(t', x, o); }
        Detached(s, o) + Detached(t, o);
      }
    }
  }

  /** Detaching from a list with one more handle at the end. */
  lemma DetachedSnoc(s: seq<Handle>, x: Handle, o: Handle)
    ensures Detached(s + [x], o) == Detached(s, o) + (if x == o then [] else [x])
  {
    assert (s + [x])[..|s|] == s;
  }

  /** The observers Subject::notify calls, in list order: the non-empty handles. */
  function Notified(s: seq<Handle>): (r: seq<Handle>)
    ensures |r| <= |s|
    ensures forall h :: h in r <==> h in s && h != Null
    ensures |s| == 1 ==> r == (if s[0] == Null then [] else s)
  {
    if s == [] then []
    else
      var last := s[|s| - 1];
      assert s == s[..|s| - 1] + [last];
      Notified(s[..|s| - 1]) + (if last == Null then [] else [last])
  }

  /** Notification walks the list front to back: the calls for a concatenation are the calls
      for its first part followed by those for its second, so with the one-element case above
      every non-empty handle is called once, in its place in the list. */
  lemma {:induction false} NotifiedAppend(s: seq<Handle>, t: seq<Handle>)
    ensures Notified(s + t) == Notified(s) + Notified(t)
    decreases |t|
  {
    if t == [] {
      assert s + t == s;
    } else {
      var t' := t[..|t| - 1];
      assert (s + t)[..|s + t| - 1] == s + t';
      NotifiedAppend(s, t');
    }
  }

  /** Every entity is a subject: it owns the list of its observers. */
  class Subject {
    var observers: seq<Handle>

    ghost predicate Valid()
      reads this
    {
      NoDuplicates(observers)
    }

    constructor ()
      ensures Valid() && observers == []
    {
      observers := [];
    }

    method Attach(o: Handle)
      requires Valid()
      modifies this
      ensures Valid()
      ensures observers == Attached(old(observers), o)
    {
      if o !in observers {
        observers := observers + [o];
      }
    }

    method Detach(o: Handle)
      requires Valid()
      modifies this
      ensures Valid()
      ensures observers == Detached(old(observers), o)
    {
      var list := observers;
      var kept: seq<Handle> := [];
      var i := 0;
      while i < |list|
        invariant 0 <= i <= |list|
        invariant kept == Detached(list[..i], o)
      {
        assert list[..i + 1] == list[..i] + [list[i]];
        DetachedSnoc(list[..i], list[i], o);
        if list[i] != o {
          kept := kept + [list[i]];
        }
        i := i + 1;
      }
      assert list[..i] == list;
      observers := kept;
    }

    /** Subject::notify: signals every non-empty handle, in list order, and changes nothing.
        The signals sent are returned. */
    method Notify() returns (calls: seq<Handle>)
      ensures calls == Notified(observers)
    {
      calls := [];
      var i := 0;
      while i < |observers|
        invariant 0 <= i <= |observers|
        invariant calls == Notified(observers[..i])
      {
        assert observers[..i + 1][..i] == observers[..i];
        if observers[i] != Null {
          calls := calls + [observers[i]];
        }
        i := i + 1;
      }
      assert observers[..i] == observers;
    }
  }
}
