/** The change-notifying setter of Assets/Game/Scripts/Core/UI/MVVM/ViewModelBase.cs.
    A `ViewModel` holds one backing field (the one `Set` receives by `ref`), whether
    `PropertyChanged` has subscribers, and the notifications raised so far, each
    carrying its property name (null allowed). `Equals(field, value)` is
    Dafny equality. */
module ViewModels {
  import opened Wrappers

  /** The observable state: the backing field, whether `PropertyChanged` is
      subscribed, and the property names notified so far. */
  datatype Observed<T> = Observed(field: T, subscribed: bool, notified: seq<Option<string>>)

  /** `OnPropertyChanged(name)`: raise the event if someone listens. */
  function Notify<T>(s: Observed<T>, name: Option<string>): Observed<T> {
    if s.subscribed then s.(notified := s.notified + [name]) else s
  }

  /** `Set(ref field, value, name)`: the new state and the returned flag. */
  function SetField<T(==)>(s: Observed<T>, value: T, name: Option<string>): (Observed<T>, bool) {
    if s.field == value then (s, false) else (Notify(s.(field := value), name), true)
  }

  // ---------------------------------------------------------------------------
  // Properties
  // ---------------------------------------------------------------------------

  /** An equal value returns false and changes nothing, with no notification; a
      different one is stored, returns true, and notifies exactly once with the
      property name when subscribed. Either way, the field ends up equal to the value. */
  lemma SetEffect<T>(s: Observed<T>, value: T, name: Option<string>)
    ensures SetField(s, value, name).0.field == value
    ensures SetField(s, value, name).1 <==> s.field != value
    ensures s.field == value ==> SetField(s, value, name).0 == s
    ensures s.field != value && s.subscribed ==> SetField(s, value, name).0.notified == s.notified + [name]
    ensures s.field != value && !s.subscribed ==> SetField(s, value, name).0.notified == s.notified
    ensures SetField(s, value, name).0.subscribed == s.subscribed
  {
  }

  /** Setting the same value twice notifies at most once: the second call returns false. */
  lemma SetTwice<T>(s: Observed<T>, value: T, name: Option<string>, other: Option<string>)
    ensures !SetField(SetField(s, value, name).0, value, other).1
    ensures SetField(SetField(s, value, name).0, value, other).0 == SetField(s, value, name).0
  {
  }

  /** With no subscribers, notifying has no effect. */
  lemma NotifyUnsubscribed<T>(s: Observed<T>, name: Option<string>)
    requires !s.subscribed
    ensures Notify(s, name) == s
  {
  }

  // ---------------------------------------------------------------------------
  // The class
  // ---------------------------------------------------------------------------

  class ViewModel<T(==)> {
    /** The backing field `Set` writes through its `ref` parameter. */
    var field: T
    /** Whether `PropertyChanged` has at least one handler. */
    var subscribed: bool
    /** The `PropertyChangedEventArgs.PropertyName` of each notification raised. */
    var notified: seq<Option<string>>

    function State(): Observed<T>
      reads this
    {
      Observed(field, subscribed, notified)
    }

    constructor (initial: T)
      ensures State() == Observed(initial, false, [])
    {
      field, subscribed, notified := initial, false, [];
    }

    /** `PropertyChanged += handler` (and the last `-=`): whether anyone listens. */
    method SetSubscribed(on: bool)
      modifies this
      ensures State() == old(State()).(subscribed := on)
    {
      subscribed := on;
    }

    method OnPropertyChanged(name: Option<string>)
      modifies this
      ensures State() == Notify(old(State()), name)
    {
      if subscribed {
        notified := notified + [name];
      }
    }

    method Set(value: T, name: Option<string>) returns (changed: bool)
      modifies this
      ensures (State(), changed) == SetField(old(State()), value, name)
    {
      if field == value {
        return false;
      }
      field := value;
      OnPropertyChanged(name);
      return true;
    }
  }
}
