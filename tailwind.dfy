/**
 * The module `withTailwind.ts` with its state in place: the module-level
 * `instances` set and `darkMode` flag, the controller that keeps the set up
 * to date, the dark-mode switches that walk it, and the decorator whose
 * initializer appends a stylesheet for every constructed instance.
 */
module Tailwind {
  import opened Wrappers
  import opened InsertionSet
  import DarkMode
  import Styles

  /** What the decorator hands to `addInitializer`: the closure is determined by the `inline` text it captured. */
  datatype Initializer = TailwindInitializer(inline: Option<string>)

  /** A custom-element class (`typeof ReactiveElement`) with its static style list and registered initializers. */
  class ElementClass {
    var elementStyles: seq<Styles.Style>
    var initializers: seq<Initializer>

    constructor (elementStyles: seq<Styles.Style>)
      ensures this.elementStyles == elementStyles && initializers == []
    {
      this.elementStyles := elementStyles;
      initializers := [];
    }
  }

  /** A DOM element: the document root, or a component instance. */
  class Element {
    const constructorClass: ElementClass    // `instance.constructor`
    var classList: set<string>
    var controllers: seq<InstancesController>

    constructor (constructorClass: ElementClass, classList: set<string>)
      ensures this.constructorClass == constructorClass && this.classList == classList
      ensures controllers == []
    {
      this.constructorClass := constructorClass;
      this.classList := classList;
      controllers := [];
    }
  }

  /** The controller each instance gets; it keeps the module's registry up to date. */
  class InstancesController {
    const host: Element

    /** `(this._host = host).addController(this)`: the controller is appended to its host's controllers. */
    constructor (host: Element)
      modifies host`controllers
      ensures this.host == host
      ensures host.controllers == old(host.controllers) + [this]
    {
      this.host := host;
      new;
      host.controllers := host.controllers + [this];
    }

    /** `instances.add(this._host)`: no class list changes, the flag neither. */
    method HostConnected(m: ModuleState)
      requires m.Valid()
      modifies m`instances, m`Tracked
      ensures m.Valid()
      ensures m.Snapshot() == DarkMode.Connect(old(m.Snapshot()), host, host.classList)
    {
      m.Tracked := m.Tracked + {host};
      m.instances := Add(m.instances, host);
    }

    /** `instances.delete(this._host)`. */
    method HostDisconnected(m: ModuleState)
      requires m.Valid()
      modifies m`instances
      ensures m.Valid()
      ensures m.Snapshot() == DarkMode.Disconnect(old(m.Snapshot()), host)
    {
      m.instances := Delete(m.instances, host);
    }
  }

  /** The state of the module once loaded: the document it runs in, its bundled stylesheet and its two variables. */
  class ModuleState {
    const root: Element                  // `document.documentElement`
    const tailwindStyles: string         // the bundled `tailwind.css` text
    var instances: seq<Element>          // `instances`, in the order a `Set` iterates
    var darkMode: bool                   // `darkMode`
    ghost var Tracked: set<Element>      // the root and every element that ever connected

    ghost predicate Valid()
      reads this
    {
      root in Tracked && (forall e :: e in instances ==> e in Tracked) && NoDup(instances)
    }

    /** The page as a value: the class lists of the tracked elements, the registry and the flag. */
    ghost function Snapshot(): (p: DarkMode.Page<Element>)
      reads this, Tracked
      ensures Valid() ==> DarkMode.WellFormed(p)
    {
      DarkMode.Page(root, instances, map e | e in Tracked :: e.classList, darkMode)
    }

    /** Loading the module: an empty registry and dark mode off. */
    constructor (root: Element, tailwindStyles: string)
      ensures this.root == root && this.tailwindStyles == tailwindStyles
      ensures Valid() && Tracked == {root}
      ensures instances == [] && !darkMode
    {
      this.root := root;
      this.tailwindStyles := tailwindStyles;
      instances := [];
      darkMode := false;
      Tracked := {root};
    }

    /** `turnDarkModeOn`: adds `dark` to the root, then to each registered instance in turn, then sets the flag. */
    method TurnDarkModeOn()
      requires Valid()
      modifies this`darkMode, root`classList, instances`classList
      ensures Valid()
      ensures Snapshot() == DarkMode.TurnOn(old(Snapshot()))
    {
      root.classList := root.classList + {DarkMode.Dark};
      for i := 0 to |instances|
        invariant forall e :: e in Tracked ==>
          e.classList == old(e.classList) + (if e == root || e in instances[..i] then {DarkMode.Dark} else {})
      {
        instances[i].classList := instances[i].classList + {DarkMode.Dark};
      }
      darkMode := true;
    }

    /** `turnDarkModeOff`: removes `dark` from the root, then from each registered instance in turn, then clears the flag. */
    method TurnDarkModeOff()
      requires Valid()
      modifies this`darkMode, root`classList, instances`classList
      ensures Valid()
      ensures Snapshot() == DarkMode.TurnOff(old(Snapshot()))
    {
      root.classList := root.classList - {DarkMode.Dark};
      for i := 0 to |instances|
        invariant forall e :: e in Tracked ==>
          e.classList == old(e.classList) - (if e == root || e in instances[..i] then {DarkMode.Dark} else {})
      {
        instances[i].classList := instances[i].classList - {DarkMode.Dark};
      }
      darkMode := false;
    }

    /** `toggleDarkMode`. */
    method ToggleDarkMode()
      requires Valid()
      modifies this`darkMode, root`classList, instances`classList
      ensures Valid()
      ensures Snapshot() == DarkMode.Toggle(old(Snapshot()))
    {
      if darkMode {
        TurnDarkModeOff();
      } else {
        TurnDarkModeOn();
      }
    }

    /**
     * The initializer body: give the instance its controller, then append
     * one compiled stylesheet to the style list of the instance's own class.
     */
    method RunInitializer(init: Initializer, instance: Element) returns (controller: InstancesController)
      modifies instance`controllers, instance.constructorClass`elementStyles
      ensures fresh(controller) && controller.host == instance
      ensures instance.controllers == old(instance.controllers) + [controller]
      ensures instance.constructorClass.elementStyles
           == Styles.AppendStyle(old(instance.constructorClass.elementStyles), init.inline, tailwindStyles)
    {
      controller := new InstancesController(instance);
      var style := Styles.Compiled(Styles.StyleSource(init.inline, tailwindStyles));
      instance.constructorClass.elementStyles := instance.constructorClass.elementStyles + [style];
    }
  }

  /** `withTailwind(inline)` applied to a class: registers the initializer, which runs once per constructed instance. */
  method WithTailwind(inline: Option<string>, target: ElementClass)
    modifies target`initializers
    ensures target.initializers == old(target.initializers) + [TailwindInitializer(inline)]
  {
    target.initializers := target.initializers + [TailwindInitializer(inline)];
  }

  /** Every instance constructed from a decorated class appends one more copy of the bundled stylesheet. */
  method TwoInstancesScenario(bundled: string)
  {
    var htmlClass := new ElementClass([]);
    var root := new Element(htmlClass, {});
    var m := new ModuleState(root, bundled);
    var cls := new ElementClass([]);
    WithTailwind(None, cls);
    var init := cls.initializers[0];

    var e1 := new Element(cls, {});
    var c1 := m.RunInitializer(init, e1);
    var e2 := new Element(cls, {});
    var c2 := m.RunInitializer(init, e2);
    assert cls.elementStyles == [Styles.Compiled(bundled), Styles.Compiled(bundled)];
  }

  /**
   * An instance connects and dark mode is switched on; a second instance
   * that connects afterwards is registered without `dark`; the next toggle
   * clears the token from both.
   */
  method LateConnectScenario(m: ModuleState, c1: InstancesController, c2: InstancesController)
    requires m.Valid() && m.instances == [] && !m.darkMode
    requires m.root != c1.host && m.root != c2.host && c1.host != c2.host
    requires DarkMode.Dark !in c2.host.classList
    modifies m, m.root, c1.host, c2.host
  {
    var e1, e2 := c1.host, c2.host;
    c1.HostConnected(m);
    m.TurnDarkModeOn();
    assert m.Snapshot().classes[e1] == e1.classList;
    assert DarkMode.Dark in e1.classList;

    c2.HostConnected(m);
    assert e2 in m.instances && m.darkMode && DarkMode.Dark !in e2.classList;

    m.ToggleDarkMode();
    assert m.Snapshot().classes[e1] == e1.classList && m.Snapshot().classes[e2] == e2.classList;
    assert !m.darkMode && DarkMode.Dark !in e1.classList && DarkMode.Dark !in e2.classList;
  }
}
