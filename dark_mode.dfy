/**
 * The dark-mode state of `withTailwind.ts` as a value: the document root,
 * the registry of live component instances, the class list of every
 * element the page knows of, and the module's `darkMode` flag. The
 * imperative model in module Tailwind is proved to move between exactly
 * these values.
 */
module DarkMode {
  import opened InsertionSet

  /** The class token the module adds and removes. */
  const Dark: string := "dark"

  datatype Page<E> = Page(
    root: E,                        // `document.documentElement`
    instances: seq<E>,              // the `instances` registry, in iteration order
    classes: map<E, set<string>>,   // the `classList` of each known element
    darkMode: bool)                 // the module's `darkMode` flag

  /** The root and every registered instance have a class list, and the registry repeats no one. */
  ghost predicate WellFormed<E>(p: Page<E>) {
    p.root in p.classes &&
    (forall e :: e in p.instances ==> e in p.classes) &&
    NoDup(p.instances)
  }

  /** The elements whose class lists the dark-mode switches touch. */
  predicate IsTarget<E(==)>(p: Page<E>, e: E) {
    e == p.root || e in p.instances
  }

  /** Every touched element carries `dark` exactly when the flag is set. */
  ghost predicate Synced<E>(p: Page<E>) {
    forall e :: e in p.classes && IsTarget(p, e) ==> (Dark in p.classes[e] <==> p.darkMode)
  }

  /** `turnDarkModeOn`: `dark` is added to the root and to every registered instance, then the flag is set. */
  function TurnOn<E(==)>(p: Page<E>): (r: Page<E>)
    ensures r.root == p.root && r.instances == p.instances && r.classes.Keys == p.classes.Keys
    ensures r.darkMode
    ensures forall e :: e in p.classes && IsTarget(p, e) ==> Dark in r.classes[e]
    ensures forall e :: e in p.classes ==> r.classes[e] - {Dark} == p.classes[e] - {Dark}
    ensures forall e :: e in p.classes && !IsTarget(p, e) ==> r.classes[e] == p.classes[e]
    ensures WellFormed(p) ==> WellFormed(r) && Synced(r)
  {
    Page(p.root, p.instances,
         map e | e in p.classes :: if IsTarget(p, e) then p.classes[e] + {Dark} else p.classes[e],
         true)
  }

  /** `turnDarkModeOff`: `dark` is removed from the root and from every registered instance, then the flag is cleared. */
  function TurnOff<E(==)>(p: Page<E>): (r: Page<E>)
    ensures r.root == p.root && r.instances == p.instances && r.classes.Keys == p.classes.Keys
    ensures !r.darkMode
    ensures forall e :: e in p.classes && IsTarget(p, e) ==> Dark !in r.classes[e]
    ensures forall e :: e in p.classes ==> r.classes[e] - {Dark} == p.classes[e] - {Dark}
    ensures forall e :: e in p.classes && !IsTarget(p, e) ==> r.classes[e] == p.classes[e]
    ensures WellFormed(p) ==> WellFormed(r) && Synced(r)
  {
    Page(p.root, p.instances,
         map e | e in p.classes :: if IsTarget(p, e) then p.classes[e] - {Dark} else p.classes[e],
         false)
  }

  /** `toggleDarkMode`: switch off when the flag is set, on otherwise. */
  function Toggle<E(==)>(p: Page<E>): (r: Page<E>)
    ensures r.root == p.root && r.instances == p.instances && r.classes.Keys == p.classes.Keys
    ensures r.darkMode == !p.darkMode
    ensures p.root in p.classes ==> (Dark in r.classes[p.root] <==> r.darkMode)
    ensures WellFormed(p) ==> WellFormed(r) && Synced(r)
  {
    if p.darkMode then TurnOff(p) else TurnOn(p)
  }

  /**
   * `hostConnected`: the host joins the registry. Its class list is left as
   * it is; `current` is that list, which the page starts to track when it
   * did not know the host before.
   */
  function Connect<E(==)>(p: Page<E>, h: E, current: set<string>): (r: Page<E>)
    ensures h in r.instances && h in r.classes
    ensures forall e :: e in p.instances ==> e in r.instances
    ensures forall e :: e in r.instances ==> e in p.instances || e == h
    ensures h in p.instances && h in p.classes ==> r == p
    ensures forall e :: e in p.classes ==> e in r.classes && r.classes[e] == p.classes[e]
    ensures h !in p.classes ==> r.classes[h] == current
    ensures r.root == p.root && r.darkMode == p.darkMode
    ensures WellFormed(p) ==> WellFormed(r)
  {
    Page(p.root, Add(p.instances, h),
         if h in p.classes then p.classes else p.classes[h := current],
         p.darkMode)
  }

  /** `hostDisconnected`: the host leaves the registry; nothing else changes. */
  function Disconnect<E(==)>(p: Page<E>, h: E): (r: Page<E>)
    ensures h !in r.instances
    ensures forall e :: e in r.instances ==> e in p.instances
    ensures forall e :: e in p.instances && e != h ==> e in r.instances
    ensures h !in p.instances ==> r == p
    ensures r.root == p.root && r.classes == p.classes && r.darkMode == p.darkMode
    ensures WellFormed(p) ==> WellFormed(r)
    ensures Synced(p) ==> Synced(r)
  {
    p.(instances := Delete(p.instances, h))
  }

  /** Switching on twice is switching on once. */
  lemma TurnOnIdempotent<E>(p: Page<E>)
    ensures TurnOn(TurnOn(p)) == TurnOn(p)
  {
  }

  /** Switching off twice is switching off once. */
  lemma TurnOffIdempotent<E>(p: Page<E>)
    ensures TurnOff(TurnOff(p)) == TurnOff(p)
  {
  }

  /** Two toggles give back the flag. */
  lemma ToggleTwiceRestoresFlag<E>(p: Page<E>)
    ensures Toggle(Toggle(p)).darkMode == p.darkMode
  {
  }

  /**
   * On a page whose class lists agree with the flag, two toggles give back
   * the whole page: every class list, the registry and the flag.
   */
  lemma ToggleTwiceRestoresSyncedPage<E>(p: Page<E>)
    requires WellFormed(p) && Synced(p)
    ensures Toggle(Toggle(p)) == p
  {
    var q := Toggle(Toggle(p));
    forall e | e in p.classes
      ensures q.classes[e] == p.classes[e]
    {
      if IsTarget(p, e) {
        assert Dark in p.classes[e] <==> p.darkMode;
      }
    }
    assert q.classes == p.classes;
  }

  /**
   * A host without `dark` that connects while dark mode is on, whether new
   * to the page or reconnecting after a switch-on it missed, is registered
   * but does not receive `dark`: the page is then out of sync until the next
   * switch-on, which gives the host `dark`.
   */
  lemma LateConnectNotSynced<E>(p: Page<E>, h: E, current: set<string>)
    requires WellFormed(p) && p.darkMode
    requires Dark !in (if h in p.classes then p.classes[h] else current)
    ensures var r := Connect(p, h, current);
      h in r.instances && Dark !in r.classes[h] && r.darkMode && !Synced(r) &&
      Dark in TurnOn(r).classes[h]
  {
  }

  /**
   * A host that connected while dark mode was off, disconnected, missed the
   * switch-on, and connects again is registered without `dark`.
   */
  lemma ReconnectMissesSwitchOn()
    ensures var p0 := Page(0, [], map[0 := {}, 1 := {}], false);
      var p := TurnOn(Disconnect(Connect(p0, 1, {}), 1));
      var r := Connect(p, 1, {});
      1 in r.instances && r.darkMode && Dark !in r.classes[1] && !Synced(r)
  {
    var p0 := Page(0, [], map[0 := {}, 1 := {}], false);
    var p := TurnOn(Disconnect(Connect(p0, 1, {}), 1));
    assert Dark !in p.classes[1];
    LateConnectNotSynced(p, 1, {});
  }

  /** A disconnected instance no longer receives the switch: only the registered elements and the root do. */
  lemma DisconnectedNotUpdated<E>(p: Page<E>, h: E)
    requires h in p.classes && h != p.root
    ensures TurnOn(Disconnect(p, h)).classes[h] == p.classes[h]
    ensures TurnOff(Disconnect(p, h)).classes[h] == p.classes[h]
  {
  }

  /**
   * Connecting a host that was not registered and disconnecting it again
   * gives back the registry in its order; the page is the same as before
   * when it already knew the host.
   */
  lemma ConnectThenDisconnect<E>(p: Page<E>, h: E, current: set<string>)
    requires h !in p.instances
    ensures var r := Disconnect(Connect(p, h, current), h);
      r.instances == p.instances && r.root == p.root && r.darkMode == p.darkMode &&
      (h in p.classes ==> r == p)
  {
    AddThenDelete(p.instances, h);
  }
}
