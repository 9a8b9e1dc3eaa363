/** The binding list of Assets/Game/Scripts/Core/UI/Binding/BindingManager.cs.
    A binding expression is an opaque object with the target it was created for;
    creating one (the reflective part) is an outcome supplied by the caller. Every
    `Dispose` call on a binding is recorded, in order. The value-level operations
    on `Book` say what each `BindingManager` method does; the class does it in
    place. */
module Bindings {
  import opened Wrappers
  import opened Sequences

  type BindingRef(==, !new)
  type TargetRef(==, !new)

  /** A binding expression and its `Target`. */
  datatype Binding = Binding(ref: BindingRef, target: Option<TargetRef>)

  /** `_bindings`, `_isDisposed`, and the bindings disposed so far. */
  datatype Book = Book(bindings: seq<Binding>, isDisposed: bool, disposed: seq<BindingRef>)

  /** `List.Remove`: drop the first occurrence, if any. */
  function RemoveFirst(s: seq<Binding>, b: Binding): (r: seq<Binding>)
    ensures b in s ==> |r| == |s| - 1
    ensures b !in s ==> r == s
    decreases |s|
  {
    if s == [] then []
    else if s[0] == b then s[1..]
    else [s[0]] + RemoveFirst(s[1..], b)
  }

  /** `BindProperty` and `BindCommand`: `created` is the new expression, or
      `None` when its constructor threw. */
  function Added(s: Book, created: Option<Binding>): Book {
    if created.Some? then s.(bindings := s.bindings + [created.value]) else s
  }

  /** `RemoveBinding`: dispose the binding, then drop its first occurrence. */
  function Remove(s: Book, b: Option<Binding>): (r: Book)
    ensures b.Some? ==> |r.bindings| >= |s.bindings| - 1
  {
    if b.None? then s
    else s.(bindings := RemoveFirst(s.bindings, b.value), disposed := s.disposed + [b.value.ref])
  }

  /** The backward loop of `RemoveBindingsForTarget`, with the indices `i - 1`
      down to 0 still to visit. */
  function Sweep(s: Book, t: TargetRef, i: nat): Book
    requires i <= |s.bindings|
    decreases i
  {
    if i == 0 then s
    else
      var b := s.bindings[i - 1];
      Sweep(if b.target == Some(t) then Remove(s, Some(b)) else s, t, i - 1)
  }

  /** `RemoveBindingsForTarget(target)`. */
  function RemoveForTarget(s: Book, t: Option<TargetRef>): Book {
    if t.None? then s else Sweep(s, t.value, |s.bindings|)
  }

  /** The references of a sequence of bindings, in order. */
  function Refs(s: seq<Binding>): (r: seq<BindingRef>)
    ensures |r| == |s|
    decreases |s|
  {
    if s == [] then [] else Refs(s[..|s| - 1]) + [s[|s| - 1].ref]
  }

  /** `Clear`: dispose every binding in list order, then empty the list. */
  function Cleared(s: Book): Book {
    s.(bindings := [], disposed := s.disposed + Refs(s.bindings))
  }

  /** `Dispose()`: clear once, then remember it. */
  function Disposed(s: Book): Book {
    if s.isDisposed then s else Cleared(s).(isDisposed := true)
  }

  const EmptyBook: Book := Book([], false, [])

  // ---------------------------------------------------------------------------
  // Properties
  // ---------------------------------------------------------------------------

  /** The bindings not for `t`, in their order. */
  function Others(s: seq<Binding>, t: TargetRef): seq<Binding>
    decreases |s|
  {
    if s == [] then []
    else
      var init := Others(s[..|s| - 1], t);
      if s[|s| - 1].target == Some(t) then init else init + [s[|s| - 1]]
  }

  /** `Others` keeps exactly the bindings whose target is not `t`. */
  lemma {:induction false} OthersMembers(s: seq<Binding>, t: TargetRef, b: Binding)
    ensures b in Others(s, t) <==> b in s && b.target != Some(t)
    decreases |s|
  {
    if s != [] {
      OthersMembers(s[..|s| - 1], t, b);
      assert s == s[..|s| - 1] + [s[|s| - 1]];
    }
  }

  /** The references of the bindings for `t`, last first: what the backward loop
      disposes. */
  function MatchesBackward(s: seq<Binding>, t: TargetRef): seq<BindingRef>
    decreases |s|
  {
    if s == [] then []
    else (if s[|s| - 1].target == Some(t) then [s[|s| - 1].ref] else []) + MatchesBackward(s[..|s| - 1], t)
  }

  /** A failed creation changes nothing; a successful one appends exactly one binding. */
  lemma BindEffect(s: Book, created: Option<Binding>)
    ensures created.None? ==> Added(s, created) == s
    ensures created.Some? ==> Added(s, created).bindings == s.bindings + [created.value]
    ensures Added(s, created).disposed == s.disposed && Added(s, created).isDisposed == s.isDisposed
  {
  }

  /** `RemoveFirst` deletes exactly the first occurrence and keeps the rest in order. */
  lemma {:induction false} RemoveFirstAt(s: seq<Binding>, i: int)
    requires 0 <= i < |s| && s[i] !in s[..i]
    ensures RemoveFirst(s, s[i]) == s[..i] + s[i + 1..]
    decreases |s|
  {
    if i > 0 {
      assert s[0] != s[i] by { assert s[..i][0] == s[0]; }
      assert s[1..][i - 1] == s[i];
      assert s[1..][..i - 1] == s[1..i];
      RemoveFirstAt(s[1..], i - 1);
      assert s[..i] == [s[0]] + s[1..i];
      assert s[1..][i..] == s[i + 1..];
    }
  }

  /** `List.Remove` takes away one copy of the binding, if it had one. */
  lemma {:induction false} RemoveFirstMultiset(s: seq<Binding>, b: Binding)
    ensures multiset(RemoveFirst(s, b)) == multiset(s) - multiset{b}
    decreases |s|
  {
    if s != [] {
      assert s == [s[0]] + s[1..];
      if s[0] != b {
        RemoveFirstMultiset(s[1..], b);
      }
    }
  }

  /** `RemoveBinding(null)` does nothing; otherwise the binding is disposed and one
      occurrence of it removed, nothing else. */
  lemma RemoveEffect(s: Book, b: Binding)
    ensures Remove(s, None) == s
    ensures Remove(s, Some(b)).disposed == s.disposed + [b.ref]
    ensures multiset(Remove(s, Some(b)).bindings) == multiset(s.bindings) - multiset{b}
    ensures b !in s.bindings ==> Remove(s, Some(b)).bindings == s.bindings
  {
    RemoveFirstMultiset(s.bindings, b);
  }

  /** `Others` and `MatchesBackward` on a prefix one longer. */
  lemma OthersPush(l: seq<Binding>, t: TargetRef, i: int)
    requires 0 < i <= |l|
    ensures Others(l[..i], t) == Others(l[..i - 1], t) + (if l[i - 1].target == Some(t) then [] else [l[i - 1]])
  {
    assert l[..i][..i - 1] == l[..i - 1];
  }

  lemma MatchesPush(l: seq<Binding>, t: TargetRef, i: int)
    requires 0 < i <= |l|
    ensures MatchesBackward(l[..i], t) == (if l[i - 1].target == Some(t) then [l[i - 1].ref] else []) + MatchesBackward(l[..i - 1], t)
  {
    assert l[..i][..i - 1] == l[..i - 1];
  }

  /** One step of the sweep that removes the binding at `i - 1`. */
  lemma SweepStep(s: Book, i: int)
    requires 0 < i <= |s.bindings| && Distinct(s.bindings)
    ensures Remove(s, Some(s.bindings[i - 1])).bindings == s.bindings[..i - 1] + s.bindings[i..]
    ensures Distinct(Remove(s, Some(s.bindings[i - 1])).bindings)
  {
    var l := s.bindings;
    assert l[i - 1] !in l[..i - 1];
    RemoveFirstAt(l, i - 1);
    DistinctDrop(l, i - 1);
  }

  /** The loop step: under distinct bindings, what is left after visiting indices
      `i - 1` down to 0 is the bindings not for `t` among the first `i`, then the
      rest untouched. */
  lemma {:induction false} SweepKeeps(s: Book, t: TargetRef, i: nat)
    requires i <= |s.bindings| && Distinct(s.bindings)
    ensures Sweep(s, t, i).bindings == Others(s.bindings[..i], t) + s.bindings[i..]
    decreases i
  {
    var l := s.bindings;
    if i == 0 {
      assert l[..0] == [];
    } else {
      var b := l[i - 1];
      OthersPush(l, t, i);
      if b.target == Some(t) {
        SweepStep(s, i);
        var s' := Remove(s, Some(b));
        SweepKeeps(s', t, i - 1);
        assert s'.bindings[..i - 1] == l[..i - 1];
        assert s'.bindings[i - 1..] == l[i..];
      } else {
        SweepKeeps(s, t, i - 1);
        assert l[i - 1..] == [b] + l[i..];
        assert Others(l[..i - 1], t) + ([b] + l[i..]) == Others(l[..i - 1], t) + [b] + l[i..];
      }
    }
  }

  /** The disposals of the loop: the bindings for `t`, last first. */
  lemma {:induction false} SweepDisposes(s: Book, t: TargetRef, i: nat)
    requires i <= |s.bindings| && Distinct(s.bindings)
    ensures Sweep(s, t, i).disposed == s.disposed + MatchesBackward(s.bindings[..i], t)
    ensures Sweep(s, t, i).isDisposed == s.isDisposed
    decreases i
  {
    var l := s.bindings;
    if i == 0 {
      assert l[..0] == [];
    } else {
      var b := l[i - 1];
      MatchesPush(l, t, i);
      if b.target == Some(t) {
        SweepStep(s, i);
        var s' := Remove(s, Some(b));
        SweepDisposes(s', t, i - 1);
        assert s'.bindings[..i - 1] == l[..i - 1];
        assert s'.disposed + MatchesBackward(l[..i - 1], t) == s.disposed + ([b.ref] + MatchesBackward(l[..i - 1], t));
      } else {
        SweepDisposes(s, t, i - 1);
        assert [] + MatchesBackward(l[..i - 1], t) == MatchesBackward(l[..i - 1], t);
      }
    }
  }

  /** `RemoveBindingsForTarget(t)` for distinct bindings: exactly the bindings for
      `t` are disposed and removed, the others stay in order; null changes nothing. */
  lemma RemoveForTargetEffect(s: Book, t: Option<TargetRef>)
    requires Distinct(s.bindings)
    ensures t.None? ==> RemoveForTarget(s, t) == s
    ensures t.Some? ==> RemoveForTarget(s, t).bindings == Others(s.bindings, t.value)
    ensures t.Some? ==> RemoveForTarget(s, t).disposed == s.disposed + MatchesBackward(s.bindings, t.value)
    ensures RemoveForTarget(s, t).isDisposed == s.isDisposed
  {
    if t.Some? {
      SweepKeeps(s, t.value, |s.bindings|);
      SweepDisposes(s, t.value, |s.bindings|);
      assert s.bindings[..|s.bindings|] == s.bindings;
      assert s.bindings[|s.bindings|..] == [];
      assert Others(s.bindings, t.value) + [] == Others(s.bindings, t.value);
    }
  }

  /** `Clear` disposes every binding once, in order, and empties the list. */
  lemma {:induction false} ClearEffect(s: Book)
    ensures Cleared(s).bindings == []
    ensures |Cleared(s).disposed| == |s.disposed| + |s.bindings|
    ensures forall k :: 0 <= k < |s.bindings| ==> Cleared(s).disposed[|s.disposed| + k] == s.bindings[k].ref
  {
    forall k | 0 <= k < |s.bindings| ensures Refs(s.bindings)[k] == s.bindings[k].ref {
      RefsAt(s.bindings, k);
    }
  }

  lemma {:induction false} RefsAt(s: seq<Binding>, k: int)
    requires 0 <= k < |s|
    ensures Refs(s)[k] == s[k].ref
    decreases |s|
  {
    if k < |s| - 1 {
      RefsAt(s[..|s| - 1], k);
    }
  }

  /** A second `Dispose` does nothing. */
  lemma DisposeTwice(s: Book)
    ensures Disposed(Disposed(s)) == Disposed(s)
    ensures Disposed(s).isDisposed
    ensures !s.isDisposed ==> Disposed(s) == Cleared(s).(isDisposed := true)
  {
  }

  /** A fresh binding keeps the list free of repetitions. */
  lemma BindDistinct(s: Book, created: Option<Binding>)
    requires Distinct(s.bindings)
    requires created.Some? ==> created.value !in s.bindings
    ensures Distinct(Added(s, created).bindings)
  {
    if created.Some? {
      DistinctPush(s.bindings, created.value);
    }
  }

  // ---------------------------------------------------------------------------
  // The class
  // ---------------------------------------------------------------------------

  class BindingManager {
    var bindings: seq<Binding>
    var isDisposed: bool
    /** The bindings disposed so far. */
    var disposed: seq<BindingRef>

    function State(): Book
      reads this
    {
      Book(bindings, isDisposed, disposed)
    }

    constructor ()
      ensures State() == EmptyBook
    {
      bindings, isDisposed, disposed := [], false, [];
    }

    /** `BindProperty` and `BindCommand`, given the outcome of the expression's
        constructor; returns the new binding, or null. */
    method Bind(created: Option<Binding>) returns (r: Option<Binding>)
      modifies this
      ensures r == created && State() == Added(old(State()), created)
    {
      if created.None? {
        return None;
      }
      bindings := bindings + [created.value];
      r := created;
    }

    method RemoveBinding(b: Option<Binding>)
      modifies this
      ensures State() == Remove(old(State()), b)
    {
      if b.None? {
        return;
      }
      disposed := disposed + [b.value.ref];
      bindings := RemoveFirst(bindings, b.value);
    }

    method RemoveBindingsForTarget(t: Option<TargetRef>)
      modifies this
      ensures State() == RemoveForTarget(old(State()), t)
    {
      if t.None? {
        return;
      }
      var i := |bindings| - 1;
      while i >= 0
        invariant -1 <= i < |bindings|
        invariant Sweep(State(), t.value, i + 1) == RemoveForTarget(old(State()), t)
      {
        var b := bindings[i];
        if b.target == t {
          RemoveBinding(Some(b));
        }
        i := i - 1;
      }
    }

    method Clear()
      modifies this
      ensures State() == Cleared(old(State()))
    {
      var k := 0;
      while k < |bindings|
        invariant 0 <= k <= |bindings|
        invariant bindings == old(bindings) && isDisposed == old(isDisposed)
        invariant disposed == old(disposed) + Refs(bindings[..k])
      {
        assert bindings[..k + 1][..k] == bindings[..k];
        disposed := disposed + [bindings[k].ref];
        k := k + 1;
      }
      assert bindings[..k] == bindings;
      bindings := [];
    }

    method Dispose()
      modifies this
      ensures State() == Disposed(old(State()))
    {
      if isDisposed {
        return;
      }
      Clear();
      isDisposed := true;
    }
  }
}
