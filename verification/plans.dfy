/**
 * The upgrade path `["Free", "Basic", "Pro"]` that lib/profileService.ts and
 * lib/paymentService.ts both search with `indexOf`.
 */
module PlanOrder {
  import opened Optional

  const UpgradeOrder: seq<string> := ["Free", "Basic", "Pro"]

  /** Plan names known to the upgrade path. */
  predicate IsKnownPlan(name: string) { name in UpgradeOrder }

  function IndexFrom(xs: seq<string>, x: string, i: nat): (r: int)
    requires i <= |xs|
    ensures r == -1 || i <= r < |xs|
    ensures r == -1 <==> x !in xs[i..]
    ensures r >= 0 ==> xs[r] == x && forall k :: i <= k < r ==> xs[k] != x
    decreases |xs| - i
  {
    if i == |xs| then -1
    else if xs[i] == x then i
    else
      assert xs[i..] == [xs[i]] + xs[i + 1..];
      IndexFrom(xs, x, i + 1)
  }

  /** `xs.indexOf(x)`: the first position of `x` in `xs`, or -1 when it is absent. */
  function IndexOf(xs: seq<string>, x: string): (r: int)
    ensures -1 <= r < |xs|
    ensures r == -1 <==> x !in xs
    ensures r >= 0 ==> xs[r] == x && x !in xs[..r]
  {
    assert xs[0..] == xs;
    IndexFrom(xs, x, 0)
  }

  /** A plan's position on the upgrade path: 0, 1, 2, or -1 when unknown. */
  function PlanIndex(name: string): (r: int)
    ensures name == "Free" ==> r == 0
    ensures name == "Basic" ==> r == 1
    ensures name == "Pro" ==> r == 2
    ensures !IsKnownPlan(name) ==> r == -1
  {
    IndexOf(UpgradeOrder, name)
  }

  /**
   * `getNextPlan`, written identically in lib/profileService.ts and
   * lib/paymentService.ts: the plan after `current` on the path. An unknown
   * plan has index -1, so it is followed by "Free".
   */
  function NextPlan(current: string): (r: Option<string>)
    ensures current == "Free" ==> r == Some("Basic")
    ensures current == "Basic" ==> r == Some("Pro")
    ensures r.None? <==> current == "Pro"
    ensures !IsKnownPlan(current) ==> r == Some("Free")
    ensures r.Some? ==> IsKnownPlan(r.value) && PlanIndex(r.value) == PlanIndex(current) + 1
  {
    var i := PlanIndex(current);
    if i < |UpgradeOrder| - 1 then Some(UpgradeOrder[i + 1]) else None
  }
}

/**
 * Property lookup on a JavaScript object literal used as a table, as in
 * `limits[plan] || limits.Free`. A key the literal does not define can
 * still resolve to a member every object inherits from `Object.prototype`.
 */
module Records {

  /** The names a plain object inherits from `Object.prototype`. */
  const PrototypeKeys: set<string> := {
    "constructor", "hasOwnProperty", "isPrototypeOf", "propertyIsEnumerable",
    "toLocaleString", "toString", "valueOf", "__proto__",
    "__defineGetter__", "__defineSetter__", "__lookupGetter__", "__lookupSetter__"}

  /** The outcome of `table[key]`: an own entry, an inherited member, or `undefined`. */
  datatype Lookup<T> = Own(value: T) | Inherited(key: string) | Undefined

  function Get<T>(table: map<string, T>, key: string): (r: Lookup<T>)
    ensures r.Own? <==> key in table
    ensures r.Own? ==> r.value == table[key]
    ensures r.Undefined? <==> key !in table && key !in PrototypeKeys
  {
    if key in table then Own(table[key])
    else if key in PrototypeKeys then Inherited(key)
    else Undefined
  }
}
