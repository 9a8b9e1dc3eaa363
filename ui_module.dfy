/** The view registry and back-stack of Assets/Game/Scripts/Core/UI/UIModule.cs.
    Views and view models are compared by reference; a view's runtime class is
    tested against a class hierarchy given as a parameter.
    The stack is a sequence whose LAST element is the top. The value-level
    operations on `Screen` say what each `UIModule` method does to the registry,
    the stack, the views' active flags and their bound view models; the class
    `UIModule` does it in place. */
module UI {
  import opened Wrappers

  type ViewRef(==, !new)
  type ViewKind(==, !new)
  type ViewModelRef(==, !new)

  /** A view component: the object and its runtime class. */
  datatype View = View(ref: ViewRef, kind: ViewKind)

  /** What `InstantiatePrefabAsync` produced: the new object, the class of its view
      component if it has one, and its `activeSelf` as instantiated. */
  datatype Prefab = Prefab(ref: ViewRef, component: Option<ViewKind>, activeSelf: bool)

  /** `_views`, `_viewStack`, each view's `gameObject.activeSelf` and each view's
      `ViewModel` (absent: null). */
  datatype Screen = Screen(
    views: map<string, View>,
    stack: seq<View>,
    active: map<View, bool>,
    bound: map<View, ViewModelRef>)

  const EmptyScreen := Screen(map[], [], map[], map[])

  // ---------------------------------------------------------------------------
  // The stack
  // ---------------------------------------------------------------------------

  /** The index of the topmost occurrence of `v`, or -1. */
  function TopmostIndex(s: seq<View>, v: View): (i: int)
    ensures -1 <= i < |s|
    ensures i >= 0 ==> s[i] == v
    ensures forall j :: i < j < |s| ==> s[j] != v
    ensures i >= 0 <==> v in s
  {
    if s == [] then -1
    else if s[|s| - 1] == v then |s| - 1
    else TopmostIndex(s[..|s| - 1], v)
  }

  /** What the pop loop of `InternalHideView` leaves: entries above `v` come off,
      `v` is dropped, the others go back in their order. */
  function RemoveTopmost(s: seq<View>, v: View): (r: seq<View>)
    decreases |s|
  {
    if s == [] then []
    else if s[|s| - 1] == v then s[..|s| - 1]
    else RemoveTopmost(s[..|s| - 1], v) + [s[|s| - 1]]
  }

  /** `RemoveTopmost` deletes exactly the topmost occurrence of `v` and keeps every
      other entry in its order; without `v` the stack is unchanged. */
  lemma {:induction false} RemoveTopmostAt(s: seq<View>, v: View)
    ensures v in s ==> RemoveTopmost(s, v) == s[..TopmostIndex(s, v)] + s[TopmostIndex(s, v) + 1..]
    ensures v !in s ==> RemoveTopmost(s, v) == s
    decreases |s|
  {
    if s != [] && s[|s| - 1] != v {
      var init := s[..|s| - 1];
      RemoveTopmostAt(init, v);
      assert s == init + [s[|s| - 1]];
      if v in s {
        assert v in init;
        var i := TopmostIndex(init, v);
        assert TopmostIndex(s, v) == i;
        assert s[..i] == init[..i];
        assert s[i + 1..] == init[i + 1..] + [s[|s| - 1]];
      }
    }
  }

  /** One occurrence of `v` fewer, nothing else added or lost. */
  lemma RemoveTopmostCounts(s: seq<View>, v: View)
    requires v in s
    ensures |RemoveTopmost(s, v)| == |s| - 1
    ensures multiset(RemoveTopmost(s, v)) == multiset(s) - multiset{v}
  {
    RemoveTopmostAt(s, v);
    SpliceCounts(s, TopmostIndex(s, v));
  }

  lemma SpliceCounts(s: seq<View>, i: int)
    requires 0 <= i < |s|
    ensures |s[..i] + s[i + 1..]| == |s| - 1
    ensures multiset(s[..i] + s[i + 1..]) == multiset(s) - multiset{s[i]}
  {
    assert s == s[..i] + [s[i]] + s[i + 1..];
  }

  /** The temporary stack of `InternalHideView` read from its top down. */
  function Reversed(s: seq<View>): (r: seq<View>)
    decreases |s|
  {
    if s == [] then [] else [s[|s| - 1]] + Reversed(s[..|s| - 1])
  }

  lemma ReversedPush(t: seq<View>, x: View)
    ensures Reversed(t + [x]) == [x] + Reversed(t)
  {
    assert (t + [x])[..|t|] == t;
  }

  lemma ConcatAssoc(a: seq<View>, b: seq<View>, c: seq<View>)
    ensures a + b + c == a + (b + c)
  {
  }

  // ---------------------------------------------------------------------------
  // Operations on the screen
  // ---------------------------------------------------------------------------

  /** The view's `ViewModel`, None for null. */
  function ViewModelOf(s: Screen, v: View): Option<ViewModelRef> {
    if v in s.bound then Some(s.bound[v]) else None
  }

  /** `gameObject.activeSelf`. */
  predicate IsActive(s: Screen, v: View) {
    v in s.active && s.active[v]
  }

  /** `InternalHideView`: deactivate, then take the topmost occurrence off the stack. */
  function Hide(s: Screen, v: View, removeFromStack: bool): (r: Screen)
    ensures r.views == s.views && r.bound == s.bound && !IsActive(r, v)
  {
    s.(active := s.active[v := false],
       stack := if removeFromStack && v in s.stack then RemoveTopmost(s.stack, v) else s.stack)
  }

  /** `InternalCloseView`: hide with stack removal, `Cleanup` (which unbinds the view
      model), and drop the key. */
  function Close(s: Screen, key: string, v: View): (r: Screen)
    ensures key !in r.views && ViewModelOf(r, v).None? && !IsActive(r, v)
  {
    var h := Hide(s, v, true);
    h.(views := h.views - {key}, bound := h.bound - {v})
  }

  /** `HideView(assetPath, removeFromStack)`. */
  function HideByPath(s: Screen, assetPath: string, removeFromStack: bool): Screen {
    if assetPath in s.views then Hide(s, s.views[assetPath], removeFromStack) else s
  }

  /** `CloseView(assetPath)`. */
  function CloseByPath(s: Screen, assetPath: string): Screen {
    if assetPath in s.views then Close(s, assetPath, s.views[assetPath]) else s
  }

  /** The class hierarchy among view classes: `(d, b)` is in it when class `d`
      derives, directly or not, from class `b`. */
  type Hierarchy = set<(ViewKind, ViewKind)>

  /** `view is T`, `view as T` and `GetComponent<T>()` accept the class `t`
      itself and every class derived from it. */
  predicate IsA(h: Hierarchy, k: ViewKind, t: ViewKind) {
    k == t || (k, t) in h
  }

  /** What `ShowViewAsync` ends in: the returned view (None: null), or the
      NullReferenceException that `Bind` throws for a null view model, with the
      screen as the throw leaves it. */
  datatype Shown = Shown(screen: Screen, view: Option<View>) | BindThrew(screen: Screen)

  /** The registry and stack part of `ShowViewAsync<TView, TViewModel>`: a cached
      view whose class is `tview` or derives from it is re-activated, re-bound and
      pushed unless it is already on top; a cached view of an unrelated class is
      refused; otherwise the new instance `load` is registered if its view
      component is a `tview`. `Bind(null)` stores null as the view model and then
      throws, after the activation of a cached view and before a new view is
      registered. */
  function Show(h: Hierarchy, s: Screen, assetPath: string, tview: ViewKind, vm: Option<ViewModelRef>, pushToStack: bool, load: Option<Prefab>): (r: Shown)
    ensures r.Shown? && r.view.Some? ==> IsA(h, r.view.value.kind, tview) && vm.Some?
    ensures r.BindThrew? ==> vm.None?
  {
    if assetPath in s.views then
      var existing := s.views[assetPath];
      if !IsA(h, existing.kind, tview) then Shown(s, None)
      else if vm.None? then
        BindThrew(s.(active := s.active[existing := true], bound := s.bound - {existing}))
      else
        var push := pushToStack && (|s.stack| == 0 || s.stack[|s.stack| - 1] != existing);
        Shown(s.(active := s.active[existing := true],
                 bound := s.bound[existing := vm.value],
                 stack := if push then s.stack + [existing] else s.stack),
              Some(existing))
    else if load.None? || load.value.component.None? || !IsA(h, load.value.component.value, tview) then Shown(s, None)
    else
      var view := View(load.value.ref, load.value.component.value);
      if vm.None? then
        BindThrew(s.(active := s.active[view := load.value.activeSelf], bound := s.bound - {view}))
      else
        Shown(s.(active := s.active[view := load.value.activeSelf],
                 bound := s.bound[view := vm.value],
                 views := s.views[assetPath := view],
                 stack := if pushToStack then s.stack + [view] else s.stack),
              Some(view))
  }

  /** The views the update, fixed-update and late-update ticks reach. */
  function Ticked(s: Screen): (r: set<View>)
    ensures forall v :: v in r <==> v in s.views.Values && IsActive(s, v)
  {
    set v | v in s.views.Values && IsActive(s, v)
  }

  // ---------------------------------------------------------------------------
  // Properties
  // ---------------------------------------------------------------------------

  /** Re-showing a cached view whose class is `tview` or derives from it pushes it
      at most once, only when asked, and never twice in a row; the registry is
      unchanged. */
  lemma ShowCached(h: Hierarchy, s: Screen, assetPath: string, tview: ViewKind, vm: ViewModelRef, pushToStack: bool, load: Option<Prefab>)
    requires assetPath in s.views && IsA(h, s.views[assetPath].kind, tview)
    ensures var r := Show(h, s, assetPath, tview, Some(vm), pushToStack, load);
      && r.Shown?
      && r.view == Some(s.views[assetPath])
      && r.screen.views == s.views
      && IsActive(r.screen, s.views[assetPath])
      && ViewModelOf(r.screen, s.views[assetPath]) == Some(vm)
      && (r.screen.stack == s.stack || r.screen.stack == s.stack + [s.views[assetPath]])
      && (pushToStack ==> r.screen.stack != [] && r.screen.stack[|r.screen.stack| - 1] == s.views[assetPath])
      && (!pushToStack ==> r.screen.stack == s.stack)
      && (s.stack != [] && s.stack[|s.stack| - 1] == s.views[assetPath] ==> r.screen.stack == s.stack)
  {
  }

  /** A refused show (cached view of an unrelated class, failed load, no `tview`
      component) changes nothing and returns null, whatever the view model. */
  lemma ShowRefused(h: Hierarchy, s: Screen, assetPath: string, tview: ViewKind, vm: Option<ViewModelRef>, pushToStack: bool, load: Option<Prefab>)
    requires || (assetPath in s.views && !IsA(h, s.views[assetPath].kind, tview))
             || (assetPath !in s.views && (load.None? || load.value.component.None? || !IsA(h, load.value.component.value, tview)))
    ensures Show(h, s, assetPath, tview, vm, pushToStack, load) == Shown(s, None)
  {
  }

  /** A newly loaded view is registered under its path, bound to the view model,
      left active as instantiated and pushed iff asked; the other registrations
      are kept. */
  lemma ShowNew(h: Hierarchy, s: Screen, assetPath: string, tview: ViewKind, vm: ViewModelRef, pushToStack: bool, p: Prefab)
    requires assetPath !in s.views && p.component.Some? && IsA(h, p.component.value, tview)
    ensures var r := Show(h, s, assetPath, tview, Some(vm), pushToStack, Some(p));
      var v := View(p.ref, p.component.value);
      && r.Shown?
      && r.view == Some(v)
      && r.screen.views == s.views[assetPath := v]
      && r.screen.stack == (if pushToStack then s.stack + [v] else s.stack)
      && ViewModelOf(r.screen, v) == Some(vm)
      && (IsActive(r.screen, v) <==> p.activeSelf)
  {
  }

  /** With a null view model, `ShowViewAsync` throws exactly when a view passes the
      class test; registry and stack stay as they were, and a cached view is left
      active with no view model. */
  lemma ShowNullViewModel(h: Hierarchy, s: Screen, assetPath: string, tview: ViewKind, pushToStack: bool, load: Option<Prefab>)
    ensures var r := Show(h, s, assetPath, tview, None, pushToStack, load);
      && r.screen.views == s.views
      && r.screen.stack == s.stack
      && (r.BindThrew? <==>
            || (assetPath in s.views && IsA(h, s.views[assetPath].kind, tview))
            || (assetPath !in s.views && load.Some? && load.value.component.Some? && IsA(h, load.value.component.value, tview)))
      && (r.Shown? ==> r.screen == s && r.view.None?)
      && (assetPath in s.views && r.BindThrew? ==>
            IsActive(r.screen, s.views[assetPath]) && ViewModelOf(r.screen, s.views[assetPath]).None?)
  {
  }

  /** `HideView` with stack removal drops exactly the topmost occurrence of the view
      and keeps the other entries in order; an unknown path changes nothing. */
  lemma HideByPathStack(s: Screen, assetPath: string)
    ensures assetPath !in s.views ==> HideByPath(s, assetPath, true) == s
    ensures assetPath in s.views ==>
      var v := s.views[assetPath];
      var i := TopmostIndex(s.stack, v);
      && !IsActive(HideByPath(s, assetPath, true), v)
      && HideByPath(s, assetPath, true).views == s.views
      && HideByPath(s, assetPath, true).stack == (if i < 0 then s.stack else s.stack[..i] + s.stack[i + 1..])
  {
    if assetPath in s.views {
      RemoveTopmostAt(s.stack, s.views[assetPath]);
    }
  }

  /** `CloseView` removes the key and one occurrence of the view from the stack and
      leaves every other key bound as before. */
  lemma CloseByPathEffect(s: Screen, assetPath: string)
    ensures assetPath !in s.views ==> CloseByPath(s, assetPath) == s
    ensures assetPath in s.views ==>
      && CloseByPath(s, assetPath).views == s.views - {assetPath}
      && (s.views[assetPath] in s.stack ==>
            multiset(CloseByPath(s, assetPath).stack) == multiset(s.stack) - multiset{s.views[assetPath]})
      && (s.views[assetPath] !in s.stack ==> CloseByPath(s, assetPath).stack == s.stack)
  {
    if assetPath in s.views && s.views[assetPath] in s.stack {
      RemoveTopmostCounts(s.stack, s.views[assetPath]);
    }
  }

  /** A view pushed twice and closed once stays on the stack while no longer
      registered: `CloseView` removes one occurrence only. */
  lemma CloseLeavesEarlierOccurrence(s: Screen, assetPath: string)
    requires assetPath in s.views
    requires multiset(s.stack)[s.views[assetPath]] >= 2
    ensures assetPath !in CloseByPath(s, assetPath).views
    ensures s.views[assetPath] in CloseByPath(s, assetPath).stack
  {
    RemoveTopmostCounts(s.stack, s.views[assetPath]);
    assert multiset(CloseByPath(s, assetPath).stack)[s.views[assetPath]] >= 1;
  }

  // ---------------------------------------------------------------------------
  // The module object
  // ---------------------------------------------------------------------------

  class UIModule {
    var views: map<string, View>
    var stack: seq<View>
    var active: map<View, bool>
    var bound: map<View, ViewModelRef>

    function State(): Screen
      reads this
    {
      Screen(views, stack, active, bound)
    }

    constructor ()
      ensures State() == EmptyScreen
    {
      views, stack, active, bound := map[], [], map[], map[];
    }

    /** `ShowViewAsync`, with the class hierarchy as `h` and the outcome of the
        asset load as `load` (consulted only when nothing is cached under
        `assetPath`); `threw` reports the exception `Bind` raises for a null view
        model. */
    method ShowView(h: Hierarchy, assetPath: string, tview: ViewKind, vm: Option<ViewModelRef>, pushToStack: bool, load: Option<Prefab>)
      returns (r: Option<View>, threw: bool)
      modifies this
      ensures threw ==> r.None?
      ensures (if threw then BindThrew(State()) else Shown(State(), r)) == Show(h, old(State()), assetPath, tview, vm, pushToStack, load)
    {
      if assetPath in views {
        var existing := views[assetPath];
        if !IsA(h, existing.kind, tview) {
          return None, false;
        }
        active := active[existing := true];
        if vm.None? {
          bound := bound - {existing};
          return None, true;
        }
        bound := bound[existing := vm.value];
        if pushToStack && (|stack| == 0 || stack[|stack| - 1] != existing) {
          stack := stack + [existing];
        }
        return Some(existing), false;
      }
      if load.None? {
        return None, false;
      }
      if load.value.component.None? || !IsA(h, load.value.component.value, tview) {
        return None, false;
      }
      var view := View(load.value.ref, load.value.component.value);
      active := active[view := load.value.activeSelf];
      if vm.None? {
        bound := bound - {view};
        return None, true;
      }
      bound := bound[view := vm.value];
      views := views[assetPath := view];
      if pushToStack {
        stack := stack + [view];
      }
      r, threw := Some(view), false;
    }

    /** `InternalHideView`: pop into a temporary stack until the view comes off,
        then push the temporary entries back. */
    method InternalHideView(view: View, removeFromStack: bool)
      modifies this
      ensures State() == Hide(old(State()), view, removeFromStack)
    {
      active := active[view := false];
      if removeFromStack && view in stack {
        var tempStack: seq<View> := [];
        while |stack| > 0
          invariant RemoveTopmost(stack, view) + Reversed(tempStack) == RemoveTopmost(old(stack), view)
          invariant views == old(views) && bound == old(bound) && active == old(active)[view := false]
          decreases |stack|
        {
          var topView := stack[|stack| - 1];
          var rest := stack[..|stack| - 1];
          stack := rest;
          if topView == view {
            break;
          }
          ReversedPush(tempStack, topView);
          ConcatAssoc(RemoveTopmost(rest, view), [topView], Reversed(tempStack));
          tempStack := tempStack + [topView];
        }
        while |tempStack| > 0
          invariant stack + Reversed(tempStack) == RemoveTopmost(old(stack), view)
          invariant views == old(views) && bound == old(bound) && active == old(active)[view := false]
          decreases |tempStack|
        {
          ConcatAssoc(stack, [tempStack[|tempStack| - 1]], Reversed(tempStack[..|tempStack| - 1]));
          stack := stack + [tempStack[|tempStack| - 1]];
          tempStack := tempStack[..|tempStack| - 1];
        }
      }
    }

    /** `InternalCloseView`. */
    method InternalCloseView(key: string, view: View)
      modifies this
      ensures State() == Close(old(State()), key, view)
    {
      InternalHideView(view, true);
      bound := bound - {view};
      views := views - {key};
    }

    /** `HideView(assetPath, removeFromStack)`. */
    method HideView(assetPath: string, removeFromStack: bool)
      modifies this
      ensures State() == HideByPath(old(State()), assetPath, removeFromStack)
    {
      if assetPath in views {
        InternalHideView(views[assetPath], removeFromStack);
      }
    }

    /** `CloseView(assetPath)`. */
    method CloseView(assetPath: string)
      modifies this
      ensures State() == CloseByPath(old(State()), assetPath)
    {
      if assetPath in views {
        InternalCloseView(assetPath, views[assetPath]);
      }
    }

    /** `FindViewByViewModel`: some registration whose view is bound to `viewModel`
        (the dictionary's enumeration order decides which), or none. */
    method FindViewByViewModel(viewModel: Option<ViewModelRef>) returns (found: Option<(string, View)>)
      ensures found.Some? ==>
        found.value.0 in views && views[found.value.0] == found.value.1 && ViewModelOf(State(), found.value.1) == viewModel
      ensures found.None? ==> forall k :: k in views ==> ViewModelOf(State(), views[k]) != viewModel
    {
      var keys := views.Keys;
      while keys != {}
        invariant keys <= views.Keys
        invariant forall k :: k in views && k !in keys ==> ViewModelOf(State(), views[k]) != viewModel
        decreases keys
      {
        var k :| k in keys;
        if ViewModelOf(State(), views[k]) == viewModel {
          return Some((k, views[k]));
        }
        keys := keys - {k};
      }
      found := None;
    }

    /** `HideView(viewModel, removeFromStack)`: nothing when no view is bound to it;
        for a null view model that matches an unbound view, the view is hidden and
        the log message's `viewModel.GetType()` then throws (`threw`). */
    method HideViewOf(viewModel: Option<ViewModelRef>, removeFromStack: bool) returns (threw: bool)
      modifies this
      ensures threw <==> viewModel.None? && exists k :: k in old(views) && ViewModelOf(old(State()), old(views)[k]) == viewModel
      ensures (forall k :: k in old(views) ==> ViewModelOf(old(State()), old(views)[k]) != viewModel) ==> State() == old(State())
      ensures (exists k :: k in old(views) && ViewModelOf(old(State()), old(views)[k]) == viewModel) ==>
        exists k :: k in old(views) && ViewModelOf(old(State()), old(views)[k]) == viewModel &&
          State() == HideByPath(old(State()), k, removeFromStack)
    {
      var found := FindViewByViewModel(viewModel);
      if found.None? {
        return false;
      }
      InternalHideView(found.value.1, removeFromStack);
      threw := viewModel.None?;
    }

    /** `CloseView(viewModel)`: nothing when no view is bound to it; for a null view
        model that matches an unbound view, the view is closed and the log
        message's `viewModel.GetType()` then throws (`threw`). */
    method CloseViewOf(viewModel: Option<ViewModelRef>) returns (threw: bool)
      modifies this
      ensures threw <==> viewModel.None? && exists k :: k in old(views) && ViewModelOf(old(State()), old(views)[k]) == viewModel
      ensures (forall k :: k in old(views) ==> ViewModelOf(old(State()), old(views)[k]) != viewModel) ==> State() == old(State())
      ensures (exists k :: k in old(views) && ViewModelOf(old(State()), old(views)[k]) == viewModel) ==>
        exists k :: k in old(views) && ViewModelOf(old(State()), old(views)[k]) == viewModel &&
          State() == CloseByPath(old(State()), k)
    {
      var found := FindViewByViewModel(viewModel);
      if found.None? {
        return false;
      }
      InternalCloseView(found.value.0, found.value.1);
      threw := viewModel.None?;
    }

    /** `GetAssetPathForView`: some key registered for `view`, or none. */
    method GetAssetPathForView(view: View) returns (path: Option<string>)
      ensures path.Some? ==> path.value in views && views[path.value] == view
      ensures path.None? ==> view !in views.Values
    {
      var keys := views.Keys;
      while keys != {}
        invariant keys <= views.Keys
        invariant forall k :: k in views && k !in keys ==> views[k] != view
        decreases keys
      {
        var k :| k in keys;
        if views[k] == view {
          return Some(k);
        }
        keys := keys - {k};
      }
      path := None;
    }

    /** `CloseTopView`: pop the top, then close it under the key it is registered
        with, if that key is not empty. */
    method CloseTopView()
      modifies this
      ensures old(stack) == [] ==> State() == old(State())
      ensures old(stack) != [] ==>
        var top := old(stack)[|old(stack)| - 1];
        var popped := old(State()).(stack := old(stack)[..|old(stack)| - 1]);
        || (top !in old(views).Values && State() == popped)
        || (exists k :: k in old(views) && old(views)[k] == top &&
              State() == (if k == "" then popped else CloseByPath(popped, k)))
    {
      if |stack| > 0 {
        var topView := stack[|stack| - 1];
        stack := stack[..|stack| - 1];
        var assetPath := GetAssetPathForView(topView);
        if assetPath.Some? && assetPath.value != "" {
          CloseView(assetPath.value);
        }
      }
    }

    /** `GetView<T>()`: some registered view whose class is `t` or derives from it,
        or none. */
    method GetViewOfKind(h: Hierarchy, t: ViewKind) returns (r: Option<View>)
      ensures r.Some? ==> r.value in views.Values && IsA(h, r.value.kind, t)
      ensures r.None? ==> forall k :: k in views ==> !IsA(h, views[k].kind, t)
    {
      var keys := views.Keys;
      while keys != {}
        invariant keys <= views.Keys
        invariant forall k :: k in views && k !in keys ==> !IsA(h, views[k].kind, t)
        decreases keys
      {
        var k :| k in keys;
        if IsA(h, views[k].kind, t) {
          return Some(views[k]);
        }
        keys := keys - {k};
      }
      r := None;
    }

    /** `GetView(viewModel)`: some registered view bound to `viewModel`, or none. */
    method GetView(viewModel: Option<ViewModelRef>) returns (r: Option<View>)
      ensures r.Some? ==> r.value in views.Values && ViewModelOf(State(), r.value) == viewModel
      ensures r.None? ==> forall k :: k in views ==> ViewModelOf(State(), views[k]) != viewModel
    {
      var keys := views.Keys;
      while keys != {}
        invariant keys <= views.Keys
        invariant forall k :: k in views && k !in keys ==> ViewModelOf(State(), views[k]) != viewModel
        decreases keys
      {
        var k :| k in keys;
        if ViewModelOf(State(), views[k]) == viewModel {
          return Some(views[k]);
        }
        keys := keys - {k};
      }
      r := None;
    }

    /** `OnUpdate`, `OnFixedUpdate` and `OnLateUpdate`: the views whose tick method is
        called, each once. */
    method Tick() returns (ticked: set<View>)
      ensures ticked == Ticked(State())
    {
      ticked := {};
      var keys := views.Keys;
      while keys != {}
        invariant keys <= views.Keys
        invariant forall v :: v in ticked <==> exists k :: k in views && k !in keys && views[k] == v && IsActive(State(), v)
        decreases keys
      {
        var k :| k in keys;
        if IsActive(State(), views[k]) {
          ticked := ticked + {views[k]};
        }
        keys := keys - {k};
      }
    }

    /** `OnShutdown`: every registered path is closed, then registry and stack are
        emptied. */
    method OnShutdown()
      modifies this
      ensures views == map[] && stack == []
      ensures forall k :: k in old(views) ==> !IsActive(State(), old(views)[k]) && ViewModelOf(State(), old(views)[k]).None?
    {
      var assetPaths := views.Keys;
      ghost var closed: set<View> := {};
      while assetPaths != {}
        invariant views.Keys == assetPaths <= old(views).Keys
        invariant forall k :: k in views ==> views[k] == old(views)[k]
        invariant forall k :: k in old(views) && k !in assetPaths ==> old(views)[k] in closed
        invariant forall v :: v in closed ==> !IsActive(State(), v) && ViewModelOf(State(), v).None?
        decreases assetPaths
      {
        var path :| path in assetPaths;
        closed := closed + {views[path]};
        CloseView(path);
        assetPaths := assetPaths - {path};
      }
      views := map[];
      stack := [];
    }
  }
}
