# Dark-mode registry of `withTailwind.ts`, modelled in Dafny

The module `src/withTailwind.ts` keeps two pieces of module-level state: a
`Set` of live component instances (`instances`) and a boolean `darkMode`. An
`InstancesController`, attached to every instance that a `withTailwind`
decorated class constructs, adds its host to the set when the host connects
and deletes it when the host disconnects. `turnDarkModeOn` adds the class
token `dark` to the document root and to every registered instance, then
sets the flag. `turnDarkModeOff` removes the token from the same elements and
clears the flag. `toggleDarkMode` calls one or the other, depending on the
flag. The decorator's initializer also appends one compiled stylesheet to the
instance class's `elementStyles` for every instance constructed. The
stylesheet is built from the caller's `inline` text when one is given, and
from the bundled Tailwind stylesheet otherwise.

The project has five modules:

- `Wrappers` (`wrappers.dfy`): `Option`, for the optional `inline` argument.
- `InsertionSet` (`insertion_set.dfy`): a JavaScript `Set` as a sequence
  without repeats, in insertion order. `Add` and `Delete` are `Set.add` and
  `Set.delete`.
- `DarkMode` (`dark_mode.dfy`): the page as a value. A `Page` holds the root,
  the registry, the class list of each known element and the flag. It has
  the switch-on, switch-off, toggle, connect and disconnect transitions, and
  lemmas about them.
- `Styles` (`styles.dfy`): which CSS text the initializer compiles, and what
  the style list becomes after one or `n` constructions.
- `Tailwind` (`tailwind.dfy`): the module with its state changed in place.
  Elements are objects whose `classList` field changes. The module-level
  variables are fields of `ModuleState`. The controller, the three dark-mode
  functions and the initializer are methods. Each dark-mode and registry
  method is proved to move `ModuleState.Snapshot()` by the matching
  `DarkMode` transition. Its `modifies` clause names the only objects and
  fields it may change. Two client methods, `TwoInstancesScenario` and
  `LateConnectScenario`, use only these contracts to follow a page through
  a short session.

## Model

| member | source | states |
|---|---|---|
| InsertionSet.Add | src/withTailwind.ts:23-25 | `Set.add`: afterwards the member is present and every earlier member is still present. Adding a member that is already present changes nothing. A new member goes last in iteration order. The set still has no repeats. |
| InsertionSet.Delete | src/withTailwind.ts:27-29 | `Set.delete`: afterwards the member is absent and every other member is still present. Nothing new appears. Deleting an absent member changes nothing. The set still has no repeats. |
| InsertionSet.DeleteKeepsOrder | src/withTailwind.ts:27-29 | Deleting a member from a set without repeats closes the gap: every other member keeps its place in the iteration order. |
| InsertionSet.AddThenDelete | src/withTailwind.ts:23-29 | Adding an absent member and then deleting it gives back the same set, in the same order. |
| DarkMode.TurnOn | src/withTailwind.ts:44-50 | Afterwards the root and every registered instance have `dark`, and the flag is set. No other token changes. Elements that are neither the root nor registered keep their class lists. The registry is unchanged. Afterwards every touched element has `dark` exactly when the flag is set. |
| DarkMode.TurnOff | src/withTailwind.ts:51-57 | Afterwards the root and every registered instance lack `dark`, and the flag is cleared. No other token changes. Elements that are neither the root nor registered keep their class lists. The registry is unchanged. Afterwards the touched elements agree with the flag. |
| DarkMode.Toggle | src/withTailwind.ts:59-65 | The flag is negated. Afterwards the root has `dark` exactly when the flag is set. Every touched element agrees with the flag. |
| DarkMode.Connect | src/withTailwind.ts:23-25 | The host is registered, and nothing else joins the registry. No class list changes: a host that connects gets no `dark`. The flag is unchanged. Connecting a host that is already registered leaves the page unchanged. |
| DarkMode.Disconnect | src/withTailwind.ts:27-29 | The host is no longer registered. Every other registered instance stays registered. Class lists and the flag are unchanged. A page whose touched elements agree with the flag still agrees afterwards. |
| DarkMode.TurnOnIdempotent | src/withTailwind.ts:44-50 | Switching dark mode on twice gives the same page as switching it on once. |
| DarkMode.TurnOffIdempotent | src/withTailwind.ts:51-57 | Switching dark mode off twice gives the same page as switching it off once. |
| DarkMode.ToggleTwiceRestoresFlag | src/withTailwind.ts:59-65 | Two toggles give back the original flag. |
| DarkMode.ToggleTwiceRestoresSyncedPage | src/withTailwind.ts:44-65 | When every touched element agrees with the flag, two toggles give back the whole page: class lists, registry and flag. |
| DarkMode.LateConnectNotSynced | src/withTailwind.ts:23-50 | A host that does not carry `dark` and connects while dark mode is on, whether new to the page or reconnecting after a switch-on it missed, is registered without `dark`. The page then no longer agrees with the flag. The next switch-on gives the host `dark`. |
| DarkMode.ReconnectMissesSwitchOn | src/withTailwind.ts:23-57 | Concrete case: a host connects while dark mode is off, disconnects, misses the switch-on, and reconnects. It is registered without `dark`, and the page is out of sync. |
| DarkMode.DisconnectedNotUpdated | src/withTailwind.ts:27-57 | After a disconnect, neither switch changes the class list of the disconnected element, unless that element is the root. |
| DarkMode.ConnectThenDisconnect | src/withTailwind.ts:23-29 | Connecting a host that was not registered and then disconnecting it gives back the registry, the root and the flag. If the page already tracked the host's class list, the whole page is given back. |
| Styles.StyleSource | src/withTailwind.ts:36 | `inline ?? tailwindStyles`: the caller's text is used whenever one is passed, even an empty one. The bundled text is used only when none is passed. |
| Styles.AppendStyle | src/withTailwind.ts:36-39 | One initializer run grows the style list by exactly one handle, compiled from the resolved text. Every earlier entry stays in place, including an equal one (no deduplication). |
| Styles.ConstructionsGrowByOneEach | src/withTailwind.ts:34-40 | After `n` constructions, the list has grown by exactly `n` entries. The earlier entries are unchanged, and every new entry is compiled from the same text. |
| Tailwind.InstancesController.constructor | src/withTailwind.ts:19-21 | The controller remembers its host. It is appended to the host's controllers. |
| Tailwind.InstancesController.HostConnected | src/withTailwind.ts:23-25 | The module's page moves by `DarkMode.Connect`. Only the registry changes; no class list and not the flag. |
| Tailwind.InstancesController.HostDisconnected | src/withTailwind.ts:27-29 | The module's page moves by `DarkMode.Disconnect`. Only the registry changes. |
| Tailwind.ModuleState.constructor | src/withTailwind.ts:13-14 | When the module loads, the registry is empty and dark mode is off. |
| Tailwind.ModuleState.TurnDarkModeOn | src/withTailwind.ts:44-50 | The loop over the registry moves the page by `DarkMode.TurnOn`. It changes only the class lists of the root and of the registered instances, and the flag. |
| Tailwind.ModuleState.TurnDarkModeOff | src/withTailwind.ts:51-57 | The loop over the registry moves the page by `DarkMode.TurnOff`. It changes only the class lists of the root and of the registered instances, and the flag. |
| Tailwind.ModuleState.ToggleDarkMode | src/withTailwind.ts:59-65 | The page moves by `DarkMode.Toggle`. |
| Tailwind.ModuleState.RunInitializer | src/withTailwind.ts:34-40 | The instance gets a new controller for itself. The style list of the instance's own class becomes `Styles.AppendStyle` of the old list. |
| Tailwind.WithTailwind | src/withTailwind.ts:32-42 | Decorating a class registers one more initializer on it, which carries the given `inline` text. |

## Left out

- The theme manager with light, dark and system modes, its persistence and its OS colour-scheme listening: `src/withTailwind.ts` does not define it. `src/test/main.ts` imports it, but its source is not part of this model.
- Stylesheet caching and deduplication, and putting a base stylesheet first: the modelled code does none of these.
- Lit's lifecycle dispatch is not modelled: Lit calls `hostConnected` and `hostDisconnected` when the host attaches and detaches, and runs the registered initializers when an instance is constructed. These are Lit internals, so here the controller methods and `RunInitializer` are called directly.
- `addController` is modelled only as an append to the host's controller list, and `addInitializer` only as an append to the class's initializer list.
- `unsafeCSS` and `getCompatibleStyle` become one opaque handle built from the CSS text. Object identity of handles is not modelled, so two handles built from the same text are equal here.
- The content of the bundled `tailwind.css` is not visible. It is the `tailwindStyles` constant of `ModuleState`.
- Real DOM and CSS are not modelled: a class list is a set of tokens, and only `dark` is ever touched.
- Tailwind.ModuleState.Snapshot shows the class lists of the root and of every element that ever connected. Elements that never connected are covered only by the `modifies` clauses, which leave them untouched.
- The demo pages (`src/test/main.ts`, `test/main.ts`) and the build configuration (`tailwind.config.js`, `vite.config.js`) are not modelled: they hold no logic of the module.
