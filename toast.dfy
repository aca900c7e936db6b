/**
 * The client's toast notifications: a list of toasts and a counter from which each new toast
 * takes its id `toast-<n>`. Timers and listeners are outside the model: `Show` returns the
 * delay after which the page removes the toast again, if it schedules that removal at all.
 */
module Toasts {
  import opened Optional

  datatype ToastType = Success | Error | Info | Warning

  datatype Toast = Toast(id: string, message: string, kind: ToastType, duration: int)

  /** The duration of a toast shown without one, in milliseconds. */
  const DefaultDuration: int := 3000

  // ---------------------------------------------------------------------------
  // Toast ids

  function Digit(d: nat): (c: char)
    requires d < 10
    ensures '0' <= c <= '9'
  {
    ('0' as int + d) as char
  }

  /** The decimal representation of `n`, as a template literal prints it. */
  function NatToString(n: nat): (r: string)
    ensures 1 <= |r|
    ensures n >= 10 ==> 2 <= |r|
    ensures forall i | 0 <= i < |r| :: '0' <= r[i] <= '9'
  {
    if n < 10 then [Digit(n)] else NatToString(n / 10) + [Digit(n % 10)]
  }

  /** Distinct numbers print differently. */
  lemma {:induction false} NatToStringInjective(a: nat, b: nat)
    requires NatToString(a) == NatToString(b)
    ensures a == b
  {
    var s := NatToString(a);
    if a < 10 && b < 10 {
      assert Digit(a) == s[0] == Digit(b);
    } else if a >= 10 && b >= 10 {
      var n := |s| - 1;
      assert s[..n] == NatToString(a / 10) && s[..n] == NatToString(b / 10);
      assert Digit(a % 10) == s[n] == Digit(b % 10);
      NatToStringInjective(a / 10, b / 10);
    }
  }

  /** The id of the `n`-th toast shown. */
  function ToastId(n: nat): (r: string)
    ensures |r| > 6 && r[..6] == "toast-"
  {
    "toast-" + NatToString(n)
  }

  /** The ids of distinct toasts differ. */
  lemma ToastIdInjective(a: nat, b: nat)
    requires ToastId(a) == ToastId(b)
    ensures a == b
  {
    assert ToastId(a)[6..] == NatToString(a);
    assert ToastId(b)[6..] == NatToString(b);
    NatToStringInjective(a, b);
  }

  /** The ids handed out once the counter has reached `n`. */
  ghost function IssuedIds(n: nat): set<string> {
    set k | 1 <= k <= n :: ToastId(k)
  }

  /** The next id is one never handed out before. */
  lemma NextIdFresh(n: nat)
    ensures ToastId(n + 1) !in IssuedIds(n)
  {
    if ToastId(n + 1) in IssuedIds(n) {
      var k :| 1 <= k <= n && ToastId(k) == ToastId(n + 1);
      ToastIdInjective(k, n + 1);
    }
  }

  // ---------------------------------------------------------------------------
  // Removing by id

  /** The toasts without those with id `id`, in their order. */
  function WithoutId(toasts: seq<Toast>, id: string): (r: seq<Toast>)
    ensures |r| <= |toasts|
    ensures forall i | 0 <= i < |r| :: r[i].id != id
    ensures forall t :: t in r <==> t in toasts && t.id != id
    ensures (forall i | 0 <= i < |toasts| :: toasts[i].id != id) ==> r == toasts
  {
    if toasts == [] then []
    else
      var rest := WithoutId(toasts[1..], id);
      if toasts[0].id != id then [toasts[0]] + rest else rest
  }

  /** Removing keeps the order: on two runs of toasts it is the two results in turn. */
  lemma {:induction false} WithoutIdConcat(a: seq<Toast>, b: seq<Toast>, id: string)
    ensures WithoutId(a + b, id) == WithoutId(a, id) + WithoutId(b, id)
  {
    if a == [] {
      assert a + b == b;
    } else {
      assert (a + b)[1..] == a[1..] + b;
      WithoutIdConcat(a[1..], b, id);
    }
  }

  /**
   * The automatic removal of a toast just shown takes out that toast alone: the list is
   * back to what it was before it was shown.
   */
  lemma ShowThenRemove(toasts: seq<Toast>, n: nat, t: Toast)
    requires forall i | 0 <= i < |toasts| :: toasts[i].id in IssuedIds(n)
    requires t.id == ToastId(n + 1)
    ensures WithoutId(toasts + [t], t.id) == toasts
  {
    NextIdFresh(n);
    WithoutIdConcat(toasts, [t], t.id);
    assert WithoutId([t], t.id) == [];
  }

  // ---------------------------------------------------------------------------
  // The manager

  class ToastManager {
    var toasts: seq<Toast>
    var idCounter: nat

    /** Every toast in the list carries an id handed out already. */
    ghost predicate Valid()
      reads this
    {
      forall i | 0 <= i < |toasts| :: toasts[i].id in IssuedIds(idCounter)
    }

    constructor ()
      ensures Valid()
      ensures toasts == [] && idCounter == 0
    {
      toasts := [];
      idCounter := 0;
    }

    /**
     * `show`: appends a toast with a fresh id, by default of type info for 3000 ms, and
     * returns its id and, when its duration is positive, the delay of its automatic removal.
     */
    method Show(message: string, duration: Option<int>, kind: Option<ToastType>)
      returns (id: string, autoRemoveAfter: Option<int>)
      requires Valid()
      modifies this
      ensures Valid()
      ensures idCounter == old(idCounter) + 1
      ensures id == ToastId(idCounter)
      ensures id !in old(IssuedIds(idCounter))
      ensures forall i | 0 <= i < |old(toasts)| :: old(toasts)[i].id != id
      ensures toasts == old(toasts) + [Toast(id, message, kind.GetOr(ToastType.Info), duration.GetOr(DefaultDuration))]
      ensures autoRemoveAfter ==
        (if duration.GetOr(DefaultDuration) > 0 then Some(duration.GetOr(DefaultDuration)) else None)
    {
      var d := duration.GetOr(DefaultDuration);
      idCounter := idCounter + 1;
      id := ToastId(idCounter);
      NextIdFresh(idCounter - 1);
      toasts := toasts + [Toast(id, message, kind.GetOr(ToastType.Info), d)];
      autoRemoveAfter := if d > 0 then Some(d) else None;
    }

    method Error(message: string, duration: Option<int>) returns (id: string, autoRemoveAfter: Option<int>)
      requires Valid()
      modifies this
      ensures Valid()
      ensures idCounter == old(idCounter) + 1 && id == ToastId(idCounter)
      ensures toasts == old(toasts) + [Toast(id, message, ToastType.Error, duration.GetOr(DefaultDuration))]
      ensures autoRemoveAfter ==
        (if duration.GetOr(DefaultDuration) > 0 then Some(duration.GetOr(DefaultDuration)) else None)
    {
      id, autoRemoveAfter := Show(message, duration, Some(ToastType.Error));
    }

    method Success(message: string, duration: Option<int>) returns (id: string, autoRemoveAfter: Option<int>)
      requires Valid()
      modifies this
      ensures Valid()
      ensures idCounter == old(idCounter) + 1 && id == ToastId(idCounter)
      ensures toasts == old(toasts) + [Toast(id, message, ToastType.Success, duration.GetOr(DefaultDuration))]
      ensures autoRemoveAfter ==
        (if duration.GetOr(DefaultDuration) > 0 then Some(duration.GetOr(DefaultDuration)) else None)
    {
      id, autoRemoveAfter := Show(message, duration, Some(ToastType.Success));
    }

    method Info(message: string, duration: Option<int>) returns (id: string, autoRemoveAfter: Option<int>)
      requires Valid()
      modifies this
      ensures Valid()
      ensures idCounter == old(idCounter) + 1 && id == ToastId(idCounter)
      ensures toasts == old(toasts) + [Toast(id, message, ToastType.Info, duration.GetOr(DefaultDuration))]
      ensures autoRemoveAfter ==
        (if duration.GetOr(DefaultDuration) > 0 then Some(duration.GetOr(DefaultDuration)) else None)
    {
      id, autoRemoveAfter := Show(message, duration, Some(ToastType.Info));
    }

    method Warning(message: string, duration: Option<int>) returns (id: string, autoRemoveAfter: Option<int>)
      requires Valid()
      modifies this
      ensures Valid()
      ensures idCounter == old(idCounter) + 1 && id == ToastId(idCounter)
      ensures toasts == old(toasts) + [Toast(id, message, ToastType.Warning, duration.GetOr(DefaultDuration))]
      ensures autoRemoveAfter ==
        (if duration.GetOr(DefaultDuration) > 0 then Some(duration.GetOr(DefaultDuration)) else None)
    {
      id, autoRemoveAfter := Show(message, duration, Some(ToastType.Warning));
    }

    /** `remove`: drops every toast with id `id`; the counter stays. */
    method Remove(id: string)
      requires Valid()
      modifies this
      ensures Valid()
      ensures toasts == WithoutId(old(toasts), id)
      ensures idCounter == old(idCounter)
    {
      toasts := WithoutId(toasts, id);
    }

    /** `clear`: empties the list but keeps the counter, so later ids stay fresh. */
    method Clear()
      requires Valid()
      modifies this
      ensures Valid()
      ensures toasts == [] && idCounter == old(idCounter)
    {
      toasts := [];
    }

    /** `getToasts`: a copy of the list. */
    method GetToasts() returns (r: seq<Toast>)
      ensures r == toasts
    {
      r := toasts;
    }
  }
}
