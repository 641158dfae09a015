# wlmatchbox in Dafny

wlmatchbox is a small Wayland compositor built on wlroots. It shows one
application at a time, maximized, below a panel. It comes with a client
library, libwlmatchapp, and with a panel client, app-panel, that acts as a
taskbar. This project models three parts of that system as Dafny state and
operations and proves properties of them:

- **The compositor's window policy** (`src/wlmatchbox/toplevel.c`,
  `output.c`, `server.c`). It covers:
  - the focus stack of mapped windows;
  - how windows are assigned to outputs and configured to fill them below
    the panel;
  - the panel back-reference each output keeps;
  - focus and activation;
  - the foreign-toplevel handles given to every window but the panel;
  - which client may see the foreign-toplevel manager;
  - keyboard, pointer and cursor policy.

  Windows and outputs are identified by abstract ids and live in maps held
  by a `Server` class. The operations are methods that change that state.
  Their effect on the maps is given by value-level functions whose meaning
  is proved in `*Effect` lemmas. The `*KeepsCore` lemmas prove that the
  structural invariant is preserved: each list holds each node once and
  only live records, and no output names a freed window as its panel.
- **The client library** (`src/libwlmatchapp`). It covers:
  - shared-memory buffers;
  - windows with their buffer pool, frame callbacks and redraw flags;
  - xdg toplevels;
  - seats and pointer dispatch;
  - the display, with its registry, roundtrips, dispatch loop, cursor cache
    and teardown.

  The library's structs are Dafny classes (module `WlmTypes`), and every
  function of the library is a method that changes their fields.
- **The taskbar** (`src/app-panel/main.c`). It covers:
  - the foreign toplevels the compositor announces;
  - the window's buffer pool;
  - the equal-width slot layout of the finished toplevels;
  - click handling that activates the toplevel under the pointer.

Modules: `Common` (option type, 32-bit conversions, list helpers),
`Compositor` (server state), `Toplevels`, `Outputs`, `ServerPolicy`,
`WlmTypes`, `Buffers`, `Windows`, `AppToplevels`, `Cursors`, `Seats`,
`Displays` and `Taskbar`.

Protocol requests sent to the other side are not modelled unless the source
records them in its own state. Callbacks into the application are modelled
as calls recorded on the seat. System calls and library loaders that can
fail are modelled as parameters that give their outcome.

## Model

| member | source | states |
|---|---|---|
| Compositor.Toplevel.WithActivated | src/wlmatchbox/toplevel.c:320-337 | an activation change sets the xdg activated state and, exactly when a foreign handle exists, the handle's activated state to the same value; nothing else of the record changes |
| Toplevels.OldestOutput | src/wlmatchbox/toplevel.c:285-296 | the output chosen is the tail of the output list (the oldest), and there is none exactly when the list is empty |
| Toplevels.ConfigureGeometry | src/wlmatchbox/toplevel.c:42-82 | a panel asks for the output width less one, leaves the height to the client and sits at the origin, never maximized; any other window is maximized and fills the output from the panel's height down to the last row; a foreign handle mirrors the maximized state |
| Toplevels.Configure | src/wlmatchbox/toplevel.c:42-82 | the window's pending state becomes the configured state for its role, its output and that output's panel, and nothing else changes |
| Toplevels.AssignOutputEffect | src/wlmatchbox/toplevel.c:271-283 | only window t moves to output o; once initialized it is reconfigured with one more configure scheduled; outputs change only for a panel window, which becomes the panel of o alone |
| Toplevels.AssignKeepsCore | src/wlmatchbox/toplevel.c:271-283 | reassigning a live window to a live output keeps the structural invariant and keeps live output references live |
| Toplevels.UnassignEffect | src/wlmatchbox/toplevel.c:285-291 | unassigning leaves the window without an output, and no output names a panel window as its panel any more; nothing else changes |
| Toplevels.UnassignKeepsCore | src/wlmatchbox/toplevel.c:285-291 | unassigning keeps the structural invariant and keeps live output references live |
| Toplevels.AssignOutput | src/wlmatchbox/toplevel.c:271-283 | the window and output maps become those AssignOutputEffect describes, and the invariant is kept |
| Toplevels.AssignAnyOutputEffect | src/wlmatchbox/toplevel.c:285-296 | only window t moves, to the oldest output or to none; outputs keep their modes and change only for a panel window |
| Toplevels.AssignAnyOutput | src/wlmatchbox/toplevel.c:285-296 | the maps become those AssignAnyOutputEffect describes, and the invariant is kept |
| Toplevels.FirstWithSurface | src/wlmatchbox/toplevel.c:24-40 | a window found has the given surface and no window before it in the focus stack has it; none is found exactly when no window has it |
| Toplevels.TryFromSurface | src/wlmatchbox/toplevel.c:24-40 | the walk from the head finds exactly FirstWithSurface |
| Toplevels.SwitchActivationEffect | src/wlmatchbox/toplevel.c:316-337 | switching focus changes only the activation of the two windows, and keeps at most one window activated |
| Toplevels.Focus | src/wlmatchbox/toplevel.c:298-348 | nothing happens for no window or for the focused one; otherwise the previous holder is deactivated, the window moves to the head of the focus stack with the others kept in order, and it is activated |
| Toplevels.Map | src/wlmatchbox/toplevel.c:84-89 | the window is linked at the head of the focus stack and focused |
| Toplevels.Unmap | src/wlmatchbox/toplevel.c:91-94 | the window leaves the focus stack, the others keep their order, and nothing else changes |
| Toplevels.Commit | src/wlmatchbox/toplevel.c:96-103 | every commit records the height of the surface's new extents; the initial commit then configures the window, and any other commit changes nothing else |
| Toplevels.WindowsAvoidPanel | src/wlmatchbox/toplevel.c:53-79 | once the panel of an output has committed extents e rows high, any other window configured for that output starts e rows below its top edge, ends on its last row, and is maximized |
| Toplevels.NewToplevel | src/wlmatchbox/toplevel.c:208-269 | a new record belongs to the given client and surface, with no output, no handle and nothing requested |
| Toplevels.CreateEffect | src/wlmatchbox/toplevel.c:208-269 | creation adds only window t, on the oldest output, with a foreign handle exactly when it lacks the panel role; only a panel window changes an output, becoming its panel |
| Toplevels.CreateKeepsCore | src/wlmatchbox/toplevel.c:208-269 | creation keeps the structural invariant and live output references |
| Toplevels.Create | src/wlmatchbox/toplevel.c:208-269 | the maps become those CreateEffect describes, and the invariant is kept |
| Toplevels.DestroyAsWritten | src/wlmatchbox/toplevel.c:105-126 | the record is freed and the outputs are left as they were |
| Toplevels.DestroyAsWrittenDangles | src/wlmatchbox/toplevel.c:105-126 | after that, an output whose panel was the destroyed window still names the freed record |
| Toplevels.Destroy | src/wlmatchbox/toplevel.c:105-126 | corrected: the record goes, no output names it as panel, the invariant is kept, and nothing else changes |
| Toplevels.ForeignDestroy | src/wlmatchbox/toplevel.c:196-206 | the window forgets its handle and nothing else changes |
| Toplevels.SetTitle | src/wlmatchbox/toplevel.c:156-163 | the record's title (what wlroots stored before the event) and the handle's title, if there is a handle, become the new title; nothing else changes |
| Toplevels.SetAppId | src/wlmatchbox/toplevel.c:146-154 | the record's app id (what wlroots stored before the event) and the handle's app id, if there is a handle, become the new app id; nothing else changes |
| Toplevels.RequestMaximizeOrFullscreen | src/wlmatchbox/toplevel.c:128-144 | the request is not honoured: an initialized surface gets one configure of the unchanged state, an uninitialized one nothing |
| Toplevels.ForeignRequestActivateAsWritten | src/wlmatchbox/toplevel.c:177-182 | as written: the request reaches the unlink of a NULL link exactly when the window is off the focus stack and does not hold the keyboard focus; otherwise it focuses as Focus does: nothing changes when the window's surface already holds the keyboard focus, else the window goes to the head of the stack, the activation moves to it and the keyboard focus (with a keyboard) goes to its surface |
| Toplevels.CreatedHandleReachesNullUnlink | src/wlmatchbox/toplevel.c:208-269 | right after creation a window that is not the panel has a foreign handle and is off the focus stack, so activating it reaches the NULL unlink |
| Toplevels.ForeignRequestActivate | src/wlmatchbox/toplevel.c:177-182 | corrected: activating a mapped window has exactly Focus's effect on the focus stack, the activation states and the keyboard focus; activating a window off the focus stack changes nothing |
| Toplevels.FirstTagged | src/wlmatchbox/toplevel.c:367-371 | the window found, if any, is one of the ancestors' |
| Toplevels.FirstTaggedNearest | src/wlmatchbox/toplevel.c:367-371 | the window found is the nearest ancestor carrying one |
| Toplevels.ToplevelAt | src/wlmatchbox/toplevel.c:350-372 | a surface buffer gives its surface and the nearest tagged ancestor's window; any other node gives nothing |
| Outputs.AssignUnassigned | src/wlmatchbox/output.c:96-102 | the walk over the focus stack, assigning each window without an output to o |
| Outputs.AssignUnassignedEffect | src/wlmatchbox/output.c:96-102 | the walk gives o to exactly the listed windows that had no output; other windows and outputs are unchanged, and o keeps its mode |
| Outputs.AssignUnassignedKeepsCore | src/wlmatchbox/output.c:96-102 | the walk keeps the structural invariant and live output references |
| Outputs.Create | src/wlmatchbox/output.c:58-103 | the output is linked at the head with no panel, and the unassigned mapped windows move to it |
| Outputs.ReassignFrom | src/wlmatchbox/output.c:48-55 | the walk over the focus stack that reassigns each window on o |
| Outputs.ReassignFromEffect | src/wlmatchbox/output.c:48-55 | exactly the listed windows on o move to the oldest remaining output, or to none; nothing else moves, and modes are kept |
| Outputs.ReassignFromKeepsCore | src/wlmatchbox/output.c:48-55 | the walk keeps the structural invariant |
| Outputs.Unlink | src/wlmatchbox/output.c:43-47 | the output leaves the list and the map; the others stay |
| Outputs.Reassign | src/wlmatchbox/output.c:50-55 | the walk over a window list reassigns each window still on o, and the maps become ReassignFrom of that list |
| Outputs.AllWindows | src/wlmatchbox/output.c:50-55 | corrected walk order: every window record appears once |
| Outputs.DestroyNotifyAsWritten | src/wlmatchbox/output.c:39-56 | as written: the maps become ReassignFrom over the focus stack only, and an unmapped window on o keeps naming the freed output |
| Outputs.DestroyNotify | src/wlmatchbox/output.c:39-56 | corrected: the maps become ReassignFrom over every window, mapped or not; every window on o moves to the oldest remaining output or to none, every other window keeps its whole record, no window names a freed output, and modes are kept |
| ServerPolicy.ForeignManagerOnlyForPanel | src/wlmatchbox/server.c:232-239 | the foreign-toplevel manager is visible to a client exactly when it is the panel client; any other global is visible to all |
| ServerPolicy.Capabilities | src/wlmatchbox/server.c:80-88 | the pointer bit is always set, the keyboard bit exactly when a keyboard exists, and no other bit |
| ServerPolicy.NewInput | src/wlmatchbox/server.c:69-89 | a keyboard goes to the head of the keyboard list and becomes the seat keyboard, a pointer is attached, anything else is ignored; the capabilities follow the keyboard list |
| ServerPolicy.CreatePanel | src/wlmatchbox/server.c:262-273 | nothing happens while a panel client exists; otherwise the spawned client becomes the panel client, with the listener linked exactly when there is one |
| ServerPolicy.OnPanelClientDestroy | src/wlmatchbox/server.c:222-230 | the listener is unlinked and there is no panel client |
| ServerPolicy.HandleKeybinding | src/wlmatchbox/server.c:241-260 | Alt+Tab is consumed and, with two or more windows, focuses the tail, rotating it to the head; other keys are not consumed and change nothing |
| ServerPolicy.CursorButton | src/wlmatchbox/server.c:140-154 | the event always goes to the pointer-focus client; a press focuses the window under the cursor, if any |
| ServerPolicy.ProcessCursorMotion | src/wlmatchbox/server.c:92-120 | over a surface, pointer focus moves there at the local position; elsewhere the default cursor is shown and focus is cleared |
| ServerPolicy.PointerFocusChange | src/wlmatchbox/server.c:50-58 | losing pointer focus restores the default cursor |
| ServerPolicy.RequestCursor | src/wlmatchbox/server.c:37-48 | a client's cursor is used exactly when that client has pointer focus |
| Buffers.BufferSize | src/libwlmatchapp/buffer.c:35 | the mapped size is height * stride reduced modulo 2^32 |
| Buffers.BufferSizeWrapsBy | src/libwlmatchapp/buffer.c:35 | a product between k * 2^32 and (k + 1) * 2^32 gives a size exactly k * 2^32 smaller |
| Buffers.Create | src/libwlmatchapp/buffer.c:27-71 | any failed system call gives no buffer; otherwise a fresh, idle buffer with the given geometry, format and wrapped size |
| Buffers.Release | src/libwlmatchapp/buffer.c:18-21 | the buffer is no longer busy |
| Buffers.Free | src/libwlmatchapp/buffer.c:73-81 | the buffer is unlinked from the pool and the others keep their order |
| Windows.Stride | src/libwlmatchapp/window.c:125-126 | four bytes per pixel, or 0xffffffff for widths cairo refuses |
| Windows.KeptMembers | src/libwlmatchapp/window.c:129-134 | a buffer survives pruning exactly when it was in the pool and is busy or matches |
| Windows.KeptDistinct | src/libwlmatchapp/window.c:129-134 | pruning keeps the pool duplicate-free |
| Windows.FirstReusable | src/libwlmatchapp/window.c:136-143 | the first idle matching buffer: the one returned is idle and matches, all before it do not, and none exactly when no buffer qualifies |
| Windows.Prune | src/libwlmatchapp/window.c:129-134 | the pool becomes Kept of the old pool and old busy set, and stays duplicate-free |
| Windows.FindReusable | src/libwlmatchapp/window.c:136-143 | the search finds exactly FirstReusable |
| Windows.Acquire | src/libwlmatchapp/window.c:136-149 | the first reusable buffer, or a fresh one linked at the head |
| Windows.Draw | src/libwlmatchapp/window.c:112-166 | an undrawable window only has a redraw flagged; otherwise the window is left as Redrawn says (pool pruned to Kept, the FirstReusable buffer or a new one at the head attached and busy, other busy flags kept, frame pending) with a commit due, and a new buffer is fresh |
| Windows.ScheduleRedraw | src/libwlmatchapp/window.c:108-110 | a redraw is flagged |
| Windows.SetSize | src/libwlmatchapp/window.c:99-106 | the window takes the size, and a redraw is flagged exactly when it changed |
| Windows.FrameDone | src/libwlmatchapp/window.c:17-25 | the callback is cleared; a flagged redraw is done exactly when the window is configured, has a draw callback and a non-empty size, and then leaves it as Redrawn says with a commit due; otherwise the redraw stays flagged and pool, attached buffer and busy flags stay |
| Windows.EnterOutput | src/libwlmatchapp/window.c:31-35 | the window's output is the one entered |
| Windows.LeaveOutput | src/libwlmatchapp/window.c:37-41 | leaving any output forgets the window's output |
| Windows.SurfaceConfigure | src/libwlmatchapp/window.c:48-56 | the window counts as configured after the acknowledgement; nothing else changes |
| Windows.Commit | src/libwlmatchapp/window.c:168-171 | no commit is due any more |
| Windows.Init | src/libwlmatchapp/window.c:62-77 | the window is linked at the head with an empty pool and a redraw flagged |
| Windows.Deinit | src/libwlmatchapp/window.c:79-91 | every buffer is freed and the window is unlinked; the list stays duplicate-free |
| AppToplevels.Configure | src/libwlmatchapp/toplevel.c:14-43 | the size is stored as uint32_t and each state flag is set exactly when the state occurs |
| AppToplevels.ConfigureBounds | src/libwlmatchapp/toplevel.c:52-58 | the bounds are stored as uint32_t and nothing else changes |
| AppToplevels.WmCapabilitiesEvent | src/libwlmatchapp/toplevel.c:60-86 | a capability is set exactly when listed |
| AppToplevels.Create | src/libwlmatchapp/toplevel.c:95-115 | a fresh toplevel whose base window is linked, itself at the head of the toplevel list, with every capability assumed |
| AppToplevels.Destroy | src/libwlmatchapp/toplevel.c:117-122 | the toplevel is unlinked and its window torn down |
| AppToplevels.SetMaximized | src/libwlmatchapp/toplevel.c:124-131 | the request is recorded and a commit is due |
| AppToplevels.SetFullscreen | src/libwlmatchapp/toplevel.c:133-145 | going fullscreen needs an output, and without one nothing is sent or due; leaving is always sent |
| AppToplevels.SetMinimized | src/libwlmatchapp/toplevel.c:147-150 | the request is recorded and a commit is due |
| AppToplevels.SetAppId | src/libwlmatchapp/toplevel.c:152-156 | the request is recorded and a commit is due |
| AppToplevels.SetTitle | src/libwlmatchapp/toplevel.c:158-161 | the request is recorded and a commit is due |
| Cursors.NameMatches | src/libwlmatchapp/display.c:235-244 | the three-branch name test is equality of optional names |
| Cursors.ThemeByName | src/libwlmatchapp/display.c:233-245 | as written: the first cached theme of the name, at whatever size |
| Cursors.ThemeFor | src/libwlmatchapp/display.c:233-245 | corrected: the first cached theme with both the name and the size, or none exactly when no such theme exists |
| Cursors.CacheThemeKeepsKeysDistinct | src/libwlmatchapp/display.c:247-259 | caching only on a miss keeps the (name, size) keys distinct |
| Cursors.GetCursorTheme | src/libwlmatchapp/display.c:226-260 | corrected: a cached theme of the name and size (0 meaning 24) is returned; otherwise a loaded theme is cached at the head; a failed load gives nothing and caches nothing |
| Cursors.CursorFor | src/libwlmatchapp/display.c:273-278 | the first cached cursor of the name, or none exactly when no cursor has it |
| Cursors.ThemeCursor | src/libwlmatchapp/display.c:273-291 | a cached cursor is returned without a lookup; otherwise one found is cached at the head; names stay distinct |
| Cursors.GetCursor | src/libwlmatchapp/display.c:262-292 | corrected: the cursor is FoundCursor of the state before; a NULL name or a failed theme load gives nothing and changes nothing; from a cached theme a cached cursor is returned as is, else the lookup's cursor is cached at the head; a new theme is cached holding just the cursor found; no other theme's cursors change |
| Seats.PointerEnter | src/libwlmatchapp/seat.c:17-32 | the seat tracks the window, whose pointer position is the entry point; the enter callback then runs |
| Seats.PointerLeave | src/libwlmatchapp/seat.c:34-44 | the leave callback runs while the window is still tracked; afterwards no window is tracked |
| Seats.PointerMotion | src/libwlmatchapp/seat.c:46-60 | ignored with no tracked window; otherwise the position moves and the motion callback runs; only the seat's calls and the tracked window's pointer position may change |
| Seats.PointerButton | src/libwlmatchapp/seat.c:62-74 | forwarded to the tracked window's button callback, when one is set |
| Seats.PointerAxis | src/libwlmatchapp/seat.c:76-88 | forwarded to the axis callback with the value converted |
| Seats.PointerFrame | src/libwlmatchapp/seat.c:90-100 | forwarded to the frame callback |
| Seats.Capabilities | src/libwlmatchapp/seat.c:118-126 | the pointer bit gives a pointer with no tracked window; otherwise nothing changes |
| Seats.Name | src/libwlmatchapp/seat.c:128-135 | the latest name replaces any earlier one |
| Seats.Create | src/libwlmatchapp/seat.c:142-154 | a fresh seat is linked at the head of the seat list |
| Seats.Destroy | src/libwlmatchapp/seat.c:156-160 | the seat is unlinked and the others keep their order |
| Seats.SetCursor | src/libwlmatchapp/seat.c:162-175 | the pointer shows the cursor's first image, or none |
| Seats.SetThemeCursor | src/libwlmatchapp/seat.c:177-187 | corrected: succeeds exactly when FoundCursor finds a cursor, and then shows that cursor; otherwise the image is unchanged |
| Displays.BindVersion | src/libwlmatchapp/display.c:87-108 | the bound version is the smaller of the announced and supported versions |
| Displays.RegistryGlobal | src/libwlmatchapp/display.c:82-114 | compositor, seat and xdg_wm_base are bound, the seat creating a seat at the head; shm is bound only the first time, making one more roundtrip due; any other interface is not bound |
| Displays.ShmFormat | src/libwlmatchapp/display.c:61-66 | each format is linked at the head |
| Displays.SeatsLeftMembers | src/libwlmatchapp/display.c:120-125 | a seat survives exactly when its key differs from the removed name |
| Displays.RemoveSeats | src/libwlmatchapp/display.c:120-125 | the seat list becomes SeatsLeft of the old list |
| Displays.RegistryGlobalRemoveAsWritten | src/libwlmatchapp/display.c:116-130 | as written, a seat is destroyed when its proxy's object id equals the removed name |
| Displays.RemoveAsWrittenKeepsRemovedSeat | src/libwlmatchapp/display.c:122 | as written, the seat of the removed global survives when its proxy id differs from the name |
| Displays.RemoveAsWrittenDropsLiveSeat | src/libwlmatchapp/display.c:122 | as written, a seat of a live global is destroyed when its proxy id equals the name |
| Displays.RegistryGlobalRemove | src/libwlmatchapp/display.c:116-130 | corrected: exactly the seats bound from the removed global are destroyed, the others keep their order |
| Displays.IdsOfSeatsLeft | src/libwlmatchapp/display.c:116-125 | the corrected removal keeps exactly the seat identities the value-level IdsLeft keeps |
| Displays.HandleEvent | src/libwlmatchapp/display.c:61-130 | one delivered event changes the registry state exactly as Apply says |
| Displays.Roundtrip | src/libwlmatchapp/display.c:158-162 | the registry state ends as ApplyAll of the events in order, with removals handled by the corrected RegistryGlobalRemove; only a first shm bind makes another roundtrip due |
| Displays.Connect | src/libwlmatchapp/display.c:148-165 | without a connection only the connection flag changes (flags, formats and seats stay); otherwise the registry state is AfterRounds of the number of roundtrips made, a roundtrip was due after each earlier one and none is due at the end, and one or two are made (two only when the first bound shm) |
| Displays.Refresh | src/libwlmatchapp/display.c:215-220 | nothing is left to commit; a redraw is still due exactly when it was due and the window could not be drawn; a done redraw leaves the window as Windows.Redrawn says, and otherwise pool, busy buffers, frame and attached buffer are as before |
| Displays.RefreshOne | src/libwlmatchapp/display.c:215-220 | refreshing one window leaves every other window's fields and its buffers' busy flags as they were, and keeps the pools apart |
| Displays.RefreshAt | src/libwlmatchapp/display.c:215-220 | one loop turn refreshes its window and leaves every other window, pool and busy flag as it was |
| Displays.RefreshNext | src/libwlmatchapp/display.c:215-220 | with the first i windows refreshed against their snapshots and the rest unchanged, one loop turn gives the same for i + 1 |
| Displays.Dispatch | src/libwlmatchapp/display.c:212-224 | every window of the list ends as Refresh leaves it, measured against its own state before the call (so an undue window is not drawn), the pools stay apart, only the redraw, buffer, attach, frame and commit fields of the windows and the busy flags of their buffers may change, and the dispatch result is returned |
| Displays.DestroyTheme | src/libwlmatchapp/display.c:48-58 | the cursor cache is emptied and the theme unlinked |
| Displays.DestroyThemes | src/libwlmatchapp/display.c:168-172 | no theme remains |
| Displays.DestroySeats | src/libwlmatchapp/display.c:174-178 | no seat remains |
| Displays.DestroyShmFormats | src/libwlmatchapp/display.c:180-185 | no format remains |
| Displays.DestroyToplevels | src/libwlmatchapp/display.c:187-191 | no toplevel remains, each base window is unlinked and empty, and the list only shrinks |
| Displays.Destroy | src/libwlmatchapp/display.c:167-210 | all lists are empty and every global is released |
| Taskbar.Configure | src/app-panel/main.c:192-217 | a nonzero dimension is taken as uint32_t, a zero one keeps the value or becomes 100 when unset; a redraw is due exactly when the size changed |
| Taskbar.HandleState | src/app-panel/main.c:534-560 | each flag is set exactly when its state occurs in the array |
| Taskbar.HandleTitle | src/app-panel/main.c:506-513 | the latest title is kept |
| Taskbar.HandleAppId | src/app-panel/main.c:515-522 | the latest app id is kept |
| Taskbar.ManagerToplevel | src/app-panel/main.c:597-609 | a fresh, unfinished toplevel with an empty slot is linked at the head |
| Taskbar.CountFinished | src/app-panel/main.c:322-329 | the count is the number of finished toplevels |
| Taskbar.ItemWidthFits | src/app-panel/main.c:332 | for a width below 2^31, count slots of the item width fit in the width |
| Taskbar.LayoutFits | src/app-panel/main.c:334-363 | a finished toplevel's slot lies within [0, width] and spans the height |
| Taskbar.LayoutDisjoint | src/app-panel/main.c:334-363 | slots of finished toplevels do not overlap, in list order |
| Taskbar.LayoutHitsOne | src/app-panel/main.c:436-452 | after a layout a point hits at most one slot, and only a finished toplevel's |
| Taskbar.LayoutHit | src/app-panel/main.c:436-452 | after a layout a click selects toplevel k exactly when the point hits k's slot |
| Taskbar.LayoutCovers | src/app-panel/main.c:331-363 | every point of the covered band hits some slot |
| Taskbar.PlaceSlots | src/app-panel/main.c:334-363 | each toplevel gets its Slot |
| Taskbar.LayoutToplevels | src/app-panel/main.c:322-363 | each toplevel's rectangle becomes its Slot from the old flags and rectangles |
| Taskbar.RetainedMembers | src/app-panel/main.c:284-291 | a buffer survives pruning exactly when it was in the pool and is busy or fits |
| Taskbar.RetainedDistinct | src/app-panel/main.c:284-291 | pruning keeps the pool duplicate-free |
| Taskbar.FirstFit | src/app-panel/main.c:293-300 | the first idle fitting buffer, or none exactly when no buffer qualifies |
| Taskbar.PruneBuffers | src/app-panel/main.c:284-291 | the pool becomes Retained of the old pool and busy set |
| Taskbar.FindFit | src/app-panel/main.c:293-300 | the search finds exactly FirstFit |
| Taskbar.AcquireBuffer | src/app-panel/main.c:293-306 | the first fitting buffer, or a fresh one linked at the head |
| Taskbar.PrepareBuffer | src/app-panel/main.c:284-306 | pruning then reuse or creation, as the two steps state |
| Taskbar.Render | src/app-panel/main.c:276-373 | the buffer is chosen as PrepareBuffer states, the toplevels are laid out, and the buffer is busy with a frame pending |
| Taskbar.Draw | src/app-panel/main.c:269-374 | with a frame pending only a redraw is flagged; otherwise the redraw is cleared and the window rendered |
| Taskbar.DrawAll | src/app-panel/main.c:95-98 | every window ends with a frame pending, and a redraw due exactly when a frame was already pending |
| Taskbar.DrawAt | src/app-panel/main.c:97 | one loop turn draws its window (a frame then pending, a redraw due exactly when one already was) and leaves every other window's pool and frame flag as they were |
| Taskbar.HandleDone | src/app-panel/main.c:562-568 | the toplevel is finished and every window is drawn |
| Taskbar.HandleClosed | src/app-panel/main.c:570-582 | the toplevel is unlinked and every window is drawn |
| Taskbar.SurfaceConfigure | src/app-panel/main.c:178-185 | with a redraw due and no frame pending the window is redrawn as Draw does it (pool, busy buffer, slot rectangles, flags); otherwise the pool, busy flags and rectangles stay as they were |
| Taskbar.FrameDone | src/app-panel/main.c:255-263 | the callback is cleared; a redraw flagged meanwhile is done as Draw does it, leaving a frame pending; with none flagged the pool, busy flags and rectangles stay as they were |
| Taskbar.PointerEnter | src/app-panel/main.c:387-401 | the seat tracks the window, the position is recorded and the window is drawn |
| Taskbar.PointerLeave | src/app-panel/main.c:403-413 | the position becomes (-1, -1), the window is drawn and no window is tracked |
| Taskbar.PointerMotion | src/app-panel/main.c:415-427 | ignored with no tracked window; otherwise the position moves and the window is drawn |
| Taskbar.PointerButton | src/app-panel/main.c:429-455 | only a left-button release over a tracked window acts, and it activates the toplevel of the first slot hit |
| Taskbar.FirstHit | src/app-panel/main.c:436-452 | the first slot hit, or none exactly when no slot is hit |
| Taskbar.SeatCapabilities | src/app-panel/main.c:488-496 | the pointer bit gives a pointer with no tracked window; otherwise nothing changes |

## Left out

- Scene-graph rendering, output frames and output modes (`output_frame_notify`, `output_request_state_notify`): rendering is wlroots' job. Outputs keep only their mode.
- `seat_request_set_selection`, `server_cursor_axis` and `server_cursor_frame` (src/wlmatchbox/server.c): each only forwards the event to wlroots (the selection to the seat, axis and frame events to the focused client), and the model keeps no state they change.
- `popup.c`, `keyboard.c` and the compositor's `main.c`: keyboard.c is not part of this model. Key events enter only as `ServerPolicy.HandleKeybinding`.
- `exec_client`: process spawning is a system call. Its result is a parameter of `ServerPolicy.CreatePanel`.
- The no-op foreign requests (maximize, minimize, fullscreen, close): they change nothing.
- wlroots and libwayland internals (`wl_display_dispatch`, the roundtrip wire protocol, request marshalling): events arrive as parameters.
- Pointer coordinates: wl_fixed values are modelled as reals, without the 24.8 rounding.
- Callbacks into applications (`on_draw`, `on_enter`, `on_global`, `on_close`, ...): a callback is recorded as a call on the seat or a flag, and its own effects are not modelled.
- `xdg_toplevel_close` of the library and `on_global_remove`: they only forward to application callbacks.
- `Seat.globalName`: model-only state. The C seat struct does not keep the registry name, which is why the removal compares the proxy id.
- The `xdg-app-chooser` application: not part of this model.
- Windows.Draw: buffer creation is assumed to succeed. The C code dereferences the NULL result when allocation fails, so that path has no defined behaviour to model.
- Taskbar.AcquireBuffer: buffer creation is assumed to succeed, for the same reason. The taskbar's `create_buffer` does what the library's `buffer_create` does, so the model reuses `Buffers.Create`.
- Taskbar.DrawAll: does not state the final slot rectangles. They come from the last window drawn (the taskbar has a single window), and `Taskbar.Draw` states them.
- Taskbar.PointerEnter, Taskbar.PointerLeave, Taskbar.PointerMotion, Taskbar.HandleDone, Taskbar.HandleClosed: state only the frame and redraw flags the redraw leaves. `Taskbar.Draw` states the full redraw.
- Taskbar slot positions: `i * item_width` is unbounded here. The lemmas assume a window narrower than 2^31, where it cannot overflow.
- The taskbar's `pointer_axis`, `pointer_frame`, `seat_name`, output enter/leave handlers, `shm_format`, `xdg_toplevel_close`, bounds and capability handlers: they do nothing.
- The taskbar's `set_cursor` and `buffer_release`: `set_cursor` is protocol sends only, and `buffer_release` is `Buffers.Release` on the same record.
- The taskbar's `registry_global`, `xdg_wm_base_ping` and `main`: they are setup and protocol plumbing. Its seats are never linked into a list.
- Cairo drawing of the slots and titles: pixels are not modelled.
- Toplevels.Focus: requires the window to be on the focus stack, because `toplevel_focus` unlinks its link. Every caller in the model meets that. The foreign activate request, which does not, is Findings row 4.
- Toplevels.ToplevelAt: requires every surface in the scene to lie below a tree that carries a window (`Tagged`). Without one, the C code dereferences a NULL tree at toplevel.c:371.
- Toplevels.AssignAnyOutput: skips clearing the panel back-reference of an output that is already freed. The C code writes to freed memory there, which is reachable only through Findings row 1.
- Toplevels.Commit: the extents are recorded when the window's own surface commits. Extents that change through a subsurface commit are not modelled; the panel has no subsurfaces.
- Toplevels.Destroy, Toplevels.DestroyAsWritten: require the window to be off the focus stack. `xdg_toplevel_destroy` accepts any window, but wlroots unmaps a mapped surface (running `xdg_toplevel_unmap`) before it signals destroy, so a destroyed window is never on the stack.
- ServerPolicy.CursorButton: requires every window tagged above the hit node to be on the focus stack. The scene shows only the trees of mapped windows, and mapping links a window onto the stack.
- Displays.Dispatch: requires no buffer to be in two windows' pools. Each buffer is linked into the list of the window that created it, and a list link holds one list at a time.
- ServerPolicy.NewInput: the keyboard-list update (head insert, becoming the seat keyboard) is what `keyboard_create` is assumed to do. keyboard.c is not part of this model.

## Findings

| source | as written | input that shows it | evidently intended | confidence | as-written member | corrected member |
|---|---|---|---|---|---|---|
| src/wlmatchbox/output.c:48-55 | the windows on a destroyed output are found by walking the focus stack, which holds only mapped windows | a window created on output o and not yet mapped when o is destroyed keeps pointing at the freed output | every window on o, mapped or not, is moved to another output | not executed | Outputs.DestroyNotifyAsWritten | Outputs.DestroyNotify |
| src/wlmatchbox/toplevel.c:105-126 | destroying the panel window never clears its output's panel back-reference | the panel client closes its window; the output still names the freed record, and the next configure of a window on that output reads it | the output's panel back-reference is cleared | not executed | Toplevels.DestroyAsWrittenDangles | Toplevels.Destroy |
| src/libwlmatchapp/display.c:122 | a seat is destroyed when its proxy's object id equals the removed global's name; the two numbers come from different namespaces | a seat bound from global 7 with proxy id 12: removing global 7 keeps it, and removing global 12 destroys it | exactly the seats bound from the removed global are destroyed | not executed | Displays.RemoveAsWrittenKeepsRemovedSeat | Displays.RegistryGlobalRemove |
| src/wlmatchbox/toplevel.c:177-182 | the foreign activate request calls toplevel_focus for any window with a handle, and toplevel_focus unlinks the window's link; an unmapped window's link is NULL (zeroed at create, cleared by unmap) | a window that has been created but not yet mapped, or has been unmapped, is activated from the taskbar while another surface holds the keyboard focus | activating a window that is not mapped is ignored | not executed | Toplevels.CreatedHandleReachesNullUnlink | Toplevels.ForeignRequestActivate |
| src/libwlmatchapp/display.c:233-245 | the theme cache is searched by name only, though each theme records the size it was loaded at | a theme loaded at size 24 is returned for a request of size 48 | the cache is keyed by name and size | not executed | Cursors.ThemeByNameIgnoresSize | Cursors.GetCursorTheme |
