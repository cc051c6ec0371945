/** Ordered handler lists, as kept by Layout (left-panel state handlers) and by
    DatePicker (date-selection, day-clicked, close and clear handlers).

    A list is a sequence of handler identities. Calling the handlers is not
    executed here: a notification round is the ordered log of the calls that
    would be made, one `Call` per registered handler, in registration order. */
module HandlerList {

  /** One invocation of handler `handler` with argument `arg`. */
  datatype Call<H, E> = Call(handler: H, arg: E)

  /** Registers a handler at the end of the list (java.util.List.add). */
  function Add<H>(hs: seq<H>, h: H): (r: seq<H>)
    ensures |r| == |hs| + 1
    ensures r[..|hs|] == hs && r[|hs|] == h
  {
    hs + [h]
  }

  /** Position of the first occurrence of `h`. */
  function IndexOf<H(==)>(hs: seq<H>, h: H): (i: nat)
    requires h in hs
    ensures i < |hs| && hs[i] == h
    ensures h !in hs[..i]
  {
    if hs[0] == h then 0
    else
      assert h in hs[1..] by { assert hs == [hs[0]] + hs[1..]; }
      var j := IndexOf(hs[1..], h);
      assert hs[..j + 1] == [hs[0]] + hs[1..][..j];
      j + 1
  }

  /** Unregisters one handler: the first element equal to `h` is dropped and
      the list is left alone when `h` is absent (java.util.List.remove(Object)). */
  function RemoveFirst<H(==)>(hs: seq<H>, h: H): (r: seq<H>)
    ensures h !in hs ==> r == hs
    ensures h in hs ==> r == hs[..IndexOf(hs, h)] + hs[IndexOf(hs, h) + 1..]
  {
    if |hs| == 0 then hs
    else
      assert hs == [hs[0]] + hs[1..];
      if hs[0] == h then hs[1..]
      else
        var t := RemoveFirst(hs[1..], h);
        RemoveFirstStep(hs, h, t);
        [hs[0]] + t
  }

  /** The inductive step of RemoveFirst when the head is not the removed handler. */
  lemma RemoveFirstStep<H>(hs: seq<H>, h: H, t: seq<H>)
    requires |hs| > 0 && hs[0] != h
    requires h !in hs[1..] ==> t == hs[1..]
    requires h in hs[1..] ==> t == hs[1..][..IndexOf(hs[1..], h)] + hs[1..][IndexOf(hs[1..], h) + 1..]
    ensures h in hs <==> h in hs[1..]
    ensures h in hs ==> [hs[0]] + t == hs[..IndexOf(hs, h)] + hs[IndexOf(hs, h) + 1..]
  {
    assert h in hs <==> h in hs[1..] by { assert hs == [hs[0]] + hs[1..]; }
    if h in hs {
      var j := IndexOf(hs[1..], h);
      assert IndexOf(hs, h) == j + 1;
      ConsAroundGap(hs, j);
    }
  }

  /** Putting the head back in front of the tail with a gap at `j` gives the
      whole sequence with a gap at `j + 1`. */
  lemma ConsAroundGap<H>(hs: seq<H>, j: nat)
    requires j + 1 < |hs|
    ensures [hs[0]] + (hs[1..][..j] + hs[1..][j + 1..]) == hs[..j + 1] + hs[j + 2..]
  {
    assert hs[..j + 1] == [hs[0]] + hs[1..][..j];
    assert hs[j + 2..] == hs[1..][j + 1..];
  }

  /** Removing one occurrence takes exactly one copy of `h` out of the bag of
      registered handlers, and nothing else. */
  lemma {:induction false} RemoveFirstMultiset<H>(hs: seq<H>, h: H)
    ensures multiset(RemoveFirst(hs, h)) == multiset(hs) - multiset{h}
  {
    if |hs| > 0 {
      assert hs == [hs[0]] + hs[1..];
      if hs[0] != h {
        RemoveFirstMultiset(hs[1..], h);
      }
    }
  }

  /** Drops every handler (java.util.List.clear). */
  function Clear<H>(hs: seq<H>): (r: seq<H>)
    ensures |r| == 0
  {
    []
  }

  /** The calls made when every registered handler is invoked with `e`, in
      list order (List.forEach, or an indexed for-loop over the list). */
  function Notify<H, E>(hs: seq<H>, e: E): (r: seq<Call<H, E>>)
    ensures |r| == |hs|
    ensures forall i :: 0 <= i < |hs| ==> r[i] == Call(hs[i], e)
  {
    if |hs| == 0 then [] else [Call(hs[0], e)] + Notify(hs[1..], e)
  }

  /** The indexed loop `for (i = 0; i < handlers.size(); i++) handlers.get(i).on…(e)`. */
  method NotifyEach<H, E>(hs: seq<H>, e: E) returns (calls: seq<Call<H, E>>)
    ensures calls == Notify(hs, e)
  {
    calls := [];
    var i := 0;
    while i < |hs|
      invariant 0 <= i <= |hs|
      invariant |calls| == i
      invariant forall k :: 0 <= k < i ==> calls[k] == Call(hs[k], e)
    {
      calls := calls + [Call(hs[i], e)];
      i := i + 1;
    }
  }

  /** A newly added handler is called last, after all earlier ones. */
  lemma {:induction false} NotifyAfterAdd<H, E>(hs: seq<H>, h: H, e: E)
    ensures Notify(Add(hs, h), e) == Notify(hs, e) + [Call(h, e)]
  {
    var l := Notify(Add(hs, h), e);
    var r := Notify(hs, e) + [Call(h, e)];
    assert |l| == |r|;
    forall i | 0 <= i < |l| ensures l[i] == r[i] {
      if i < |hs| { assert Add(hs, h)[i] == hs[i]; }
    }
  }

  /** Adding a handler that was absent and then removing it restores the list. */
  lemma {:induction false} RemoveUndoesAdd<H>(hs: seq<H>, h: H)
    requires h !in hs
    ensures RemoveFirst(Add(hs, h), h) == hs
  {
    var a := Add(hs, h);
    assert h in a;
    var i := IndexOf(a, h);
    assert forall k :: 0 <= k < |hs| ==> a[k] == hs[k];
    assert a[..i] == hs;
    assert a[i + 1..] == [];
  }

  /** After clearing, a notification round calls nobody. */
  lemma ClearSilences<H, E>(hs: seq<H>, e: E)
    ensures Notify(Clear(hs), e) == []
  {
  }

  /** A handler registered exactly once receives no call once it is removed;
      one registered several times keeps all but one of its calls. */
  lemma {:induction false} RemovedHandlerCallCount<H, E>(hs: seq<H>, h: H, e: E)
    ensures multiset(RemoveFirst(hs, h))[h] == if h in hs then multiset(hs)[h] - 1 else 0
    ensures multiset(hs)[h] <= 1 ==>
              forall c :: c in Notify(RemoveFirst(hs, h), e) ==> c.handler != h
  {
    var r := RemoveFirst(hs, h);
    RemoveFirstMultiset(hs, h);
    if h !in hs {
      assert multiset(hs)[h] == 0;
    }
    if multiset(hs)[h] <= 1 {
      assert multiset(r)[h] == 0;
      var n := Notify(r, e);
      forall c | c in n ensures c.handler != h {
        var k :| 0 <= k < |n| && n[k] == c;
        assert r[k] in multiset(r);
      }
    }
  }
}
