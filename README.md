# dwm-rust core in Dafny

dwm-rust is a tiling window manager for X11. This project models its state and its rules:

- **Window manager state.** The `WM` record holds the list of workspaces (one per tag), the selected workspace, the bar height, the status text and the Num Lock modifier mask.
- **Workspaces.** Each workspace holds an ordered list of clients. A client is a managed X window, and the head of the list is the master.
- **Layout engine.** It gives each client its geometry. The shipped tiling layout splits the area below or above the bar into equal columns. The other layouts are identities in this revision.
- **Bar placement.** It computes where the bar goes and what area is left for windows.
- **Event dispatcher.** It threads the state through one handler per event kind: map, destroy, configure, key press, property change and button press.
- **Key bindings.** The source ships no key table, and its only binding functions are `spawn` and `quit` in `main.rs`. The model therefore closes the actions to these two: a binding either spawns a program, whose command line is split on spaces, or quits.
- **Start-up.** This covers the command-line decision, the chain `setup` builds the first state with, the X error classification and the main loop, which runs while the state says so.
- **Older revisions.** `main.rs` has an older dispatcher and key handler, in which every matching binding runs rather than the first. `monitor.rs` has an older monitor object whose bar geometry is updated in place. Each is modelled as written and is not reconciled with the newer code. Lemmas state where the two revisions agree and where they differ.

State is threaded by value, as in the Rust code, which moves `WM` and `Workspace` through every handler. The following loops and in-place state updates of the source become methods, each proved equal to a specification function that the lemmas reason about:

- client removal (a loop);
- the Num Lock search (nested loops);
- the key grabs (nested loops; the inner one is the method `WmState.GrabKey`);
- the bar-window assignment (a loop);
- the head insert, then the take-out and put-back of the selected workspace, in `manage` (state updates);
- the all-matches key handler (a loop);
- the main loop;
- the tag accumulation of the old monitor (a loop).

The old `Monitor` is a class whose `updatebarpos` changes `wy`, `wh` and the bar's y (`by`) in place. The field is named `barY` because `by` is a Dafny keyword.

Answers from the X server become inputs:

- `Events.Display` gives the keysym of a keycode, the attributes of a window (absent when the query fails) and the root window's name.
- `WmState.ModifierKeymap` is the server's modifier map.
- A map from keysym to keycode stands for `XKeysymToKeycode`.
- The event queue is a finite list of events.

Requests to the server come out as values: the key grabs, and the configure events and window changes sent. Starting a program is an `Exec` request.

The workspace revision places the content and the bar with absolute values, not offsets from the workspace's `y` as the monitor revision does (src/wm/monitor.rs:148-161); the model keeps each revision's arithmetic:

- `minY` yields `bh` for a shown top bar (src/wm/workspace.rs:138).
- A shown bottom bar of a workspace sits at `h - bh` (src/wm/workspace.rs:149-162).
- Every workspace gets number 0, so the workspace equality, which compares numbers, holds for any two workspaces (`WmState.CreateWorkspacesValid`).

## Model

| member | source | states |
|---|---|---|
| Workspaces.SameWorkspaceIsNumberEquivalence | src/wm/workspace.rs:78-82 | workspace equality (`SameWorkspace`) compares only the number: it is an equivalence, and changing the clients, bar window or geometry does not affect it |
| Clients.SameClientIsHandleEquivalence | src/wm/client.rs:26-30 | client equality compares only the window handle: it is an equivalence, and changing the geometry does not affect it |
| Clients.SetGeom | src/wm/workspace.rs:21-27 | setting a geometry changes x, y, w and h to the given values and nothing else, so the client stays the same client |
| Clients.CreateClient | src/wm/client.rs:35-45 | a new client takes x, y, width and height from the attributes and stores the handle; it has no name, border 0, tags 0 and every status flag false |
| Clients.CreateClientIdentity | src/wm/client.rs:35-45 | the monitor index argument is ignored, and clients made for the same window are equal |
| Clients.Width | src/wm/client.rs:91-93 | the width including borders is at least the inner width and exceeds it by exactly two border widths |
| Clients.Height | src/wm/client.rs:98-100 | the height including borders is at least the inner height and exceeds it by exactly two border widths |
| Clients.OuterSize | src/wm/client.rs:91-100 | width and height including borders exceed the inner size by exactly two border widths; a new client's outer size is its attribute size |
| Clients.Configure | src/wm/client.rs:105-120 | the synthetic event is a ConfigureNotify, marked as sent, with serial 0, no sibling and no override-redirect, addressed to the client's own window |
| Clients.ConfigureCarriesGeometry | src/wm/client.rs:105-120 | the event carries exactly the client's stored x, y, w, h and border width: applying them back changes nothing |
| Configuration.Shipped | src/config.rs:16-30 | the shipped configuration shows a bottom bar, uses two masters and starts with the tiling layout |
| Workspaces.CreateWorkspace | src/wm/workspace.rs:87-117 | a new workspace has the given tag, number 0, no clients, no bar window, zero geometry, the configured master count and bar flags, and the first layout |
| Workspaces.MinY | src/wm/workspace.rs:137-139 | the content rectangle starts at bh below a shown top bar, and at the workspace's y otherwise |
| Workspaces.MaxH | src/wm/workspace.rs:141-144 | the content height is at most the workspace height; a shown bar's height plus the content height is the workspace height; with the bar hidden the content height is the workspace height |
| Workspaces.TileArrange | src/wm/workspace.rs:16-33 | tiling keeps every non-client field and the number of clients; client i gets x = minX + i·(maxW / n), y = minY, width maxW / n and height maxH |
| Workspaces.TileEmpty | src/wm/workspace.rs:30-32 | with no clients, tiling returns the workspace unchanged |
| Workspaces.TileSingle | src/wm/workspace.rs:19-23 | a single client gets the whole content rectangle and stays the same client |
| Workspaces.TileColumns | src/wm/workspace.rs:24-29 | with n > 1 clients the columns are pairwise disjoint and lie inside the content rectangle; together they fill its width short by less than n pixels |
| Workspaces.TileThreeColumns | src/wm/workspace.rs:24-29 | three clients in a 900×600 area get 300-pixel columns at x = 0, 300 and 600 |
| Workspaces.ArrangeKeepsClients | src/wm/workspace.rs:35-47 | the monocle, floating and grid layouts return the workspace as given; every layout keeps the non-client fields and the clients' handles in order |
| Workspaces.Arrange | src/wm/workspace.rs:262-263 | the layout's arrange function is applied: tiling for the tile layout, the workspace unchanged for the monocle, floating and grid layouts, whose functions at workspace.rs:35-47 are identities; the non-client fields and the client count are kept |
| Workspaces.UpdateGeom | src/wm/workspace.rs:261-268 | the result is the workspace's own layout applied to it (the even column split for tile, the workspace itself for the identity layouts); every non-client field and the list of handles are kept, and the bar still fits |
| Workspaces.UpdateBarPos | src/wm/workspace.rs:149-162 | placing the bar sets bh and the bar's y and nothing else: y for a top bar, h − bh for a bottom bar, −bh when hidden |
| Workspaces.BarBesideContent | src/wm/workspace.rs:137-162 | on a workspace at the top of the screen a shown bar and the content rectangle are adjacent and cover the height; a hidden bar sits just above the screen and the content is the whole workspace |
| Workspaces.AddClient | src/wm/workspace.rs:241-243 | the client becomes the head of the list, followed by the old clients; nothing else changes |
| Workspaces.FirstIndex | src/wm/workspace.rs:249-255 | the position of the first client with the handle, or none exactly when no client has it |
| Workspaces.RemoveFirst | src/wm/workspace.rs:248-256 | nothing is removed exactly when no client has the handle, and then the list is unchanged; otherwise the client taken has the handle, sits at some index i before which no client has it, and the list left is the list without index i |
| Workspaces.RemoveClient | src/wm/workspace.rs:248-256 | the index loop removes and returns the first client equal to the given one; with none it returns nothing and the list is unchanged |
| Workspaces.RemoveFirstCount | src/wm/workspace.rs:248-256 | a removal takes out exactly one client with the handle, keeping the others as a multiset; a failed removal changes nothing |
| Workspaces.RemoveAfterAdd | src/wm/workspace.rs:241-256 | removing a client just added at the head gives back the old client list and the client |
| Workspaces.FindFromWindow | src/wm/client.rs:50-60 | the lookup finds a client with the handle exactly when some workspace holds one, and what it finds is a client of some workspace |
| Monitors.BarPos | src/wm/monitor.rs:148-161 | for a top bar the window area starts bh below my with height mh − bh and the bar is at my; for a bottom bar the window area starts at my and the bar is at my + mh − bh; for a hidden bar the area is the whole monitor and the bar is at −bh |
| Monitors.BarBesideWindows | src/wm/monitor.rs:148-161 | a shown bar and the window area tile the monitor's height without overlap; a hidden bar lies wholly above the screen |
| Monitors.BarPosAgreesWithWorkspace | src/wm/monitor.rs:148-161 | on a screen at the origin, the monitor revision and the workspace revision put the bar at the same height and leave the same window height |
| Monitors.Monitor.constructor | src/wm/monitor.rs:43-78 | a new monitor has zero geometry, both tag sets at 1, the first layout and the layout at 1 mod the table length, and the configured bar and master settings |
| Monitors.Monitor.UpdateBarPos | src/wm/monitor.rs:148-161 | updates wy, wh and the bar's y in place, to the values BarPos gives, and nothing else |
| Monitors.UrgentWithinOccupied | src/wm/monitor.rs:86-91 | every urgent tag bit is an occupied tag bit |
| Monitors.ClientTagsOccupied | src/wm/monitor.rs:86-91 | every client's tags are contained in the occupied mask |
| Monitors.Monitor.Occupancy | src/wm/monitor.rs:83-91 | the loop gives the OR of all clients' tags and the OR of the urgent clients' tags, and the second is contained in the first |
| Monitors.Monitor.PlaceStatus | src/wm/monitor.rs:115-127 | on the selected monitor the status is right-aligned at ww − width, or starts at xx with width ww − xx when too wide, and ends at ww; elsewhere x = ww and the width still holds the layout symbol's width; the title width left is x − xx |
| WmState.InitWm | src/wm/mod.rs:45-63 | the initial state is running, with no workspaces, selection 0, status text "dwm-rust", Num Lock mask 0, and bar height two more than the font height |
| WmState.CreateWorkspaces | src/wm/mod.rs:107-119 | one workspace per tag, in tag order, each screen-sized with its bar placed; the first is selected and nothing else changes |
| WmState.CreateWorkspacesValid | src/wm/mod.rs:107-119 | the created workspaces have a valid selection and fitting bars, hold no clients, and all compare equal |
| WmState.FirstRowFrom | src/wm/mod.rs:141-150 | the first modifier row from i on that holds the keycode, or none when no such row does |
| WmState.NumLockMask | src/wm/mod.rs:141-151 | with no row of the modifier map holding the keycode the mask is 0; otherwise it is 1 << i for the smallest row i that holds it |
| WmState.UpdateNumLockMask | src/wm/mod.rs:138-153 | the nested search with early return sets the mask to the bit of the first row holding the Num Lock keycode, or to 0, and changes nothing else |
| WmState.NumLockMaskMeaning | src/wm/mod.rs:141-151 | the mask is 0 exactly when no row of the modifier map holds the keycode, and otherwise it is 1 << i for the smallest such row i |
| WmState.GrabsForKey | src/wm/mod.rs:164-169 | a key with a keycode is grabbed four times, with its modifiers OR-ed with 0, LockMask, the Num Lock mask and both; a key without a keycode is not grabbed |
| WmState.Grabs | src/wm/mod.rs:163-170 | the grabs of a key table come in groups of four, at most four per key |
| WmState.GrabKey | src/wm/mod.rs:165-169 | the inner loop over the four lock combinations makes exactly the grabs GrabsForKey lists for a key with a keycode |
| WmState.GrabKeys | src/wm/mod.rs:158-172 | refreshes the Num Lock mask, then the loop grabs the key table's keys in order, as Grabs lists them |
| WmState.GrabsMeaning | src/wm/mod.rs:160-169 | a grab is made exactly for each bound key with a non-zero keycode under each of the four lock combinations, and never for keycode 0 |
| WmState.GrabsSound | src/wm/mod.rs:163-170 | every grab stems from a bound key and one lock combination |
| WmState.GrabsComplete | src/wm/mod.rs:163-170 | every bound key with a keycode is grabbed under each lock combination |
| WmState.WithBars | src/wm/mod.rs:195-211 | when the first workspace has no bar window, every workspace without one gets the new window and the others keep theirs; otherwise nothing changes |
| WmState.UpdateBars | src/wm/mod.rs:177-214 | the assignment loop over the workspaces yields the state WithBars describes |
| WmState.BarsIdempotent | src/wm/mod.rs:195-211 | after a non-zero bar window is assigned, the first workspace has one and a second assignment changes nothing |
| WmState.GetTextProp | src/wm/mod.rs:216-223 | an empty text counts as absent; any other decoded text is returned as it is |
| WmState.UpdateStatus | src/wm/mod.rs:228-234 | the status text becomes the root window's name unless that is empty, in which case the old text stays; nothing else changes |
| WmState.UpdateStatusSettles | src/wm/mod.rs:228-234 | refreshing twice is the same as refreshing once, and a non-empty status text never becomes empty |
| WmState.AfterManage | src/wm/mod.rs:282-285 | managing puts the new handle at the head of the selected workspace and keeps the other handles in order; the selected workspace is exactly the grown workspace passed through UpdateGeom, so it is re-arranged by its layout; the other workspaces, the workspace order and the selected workspace's other fields are unchanged |
| WmState.Manage | src/wm/mod.rs:239-292 | the head insert followed by take-out, re-arrange and put-back at the same index yields the state AfterManage describes |
| WmState.ManageCountsOne | src/wm/mod.rs:282 | managing adds exactly one client to the total across workspaces |
| WmState.ManageKeepsHandlesUnique | src/wm/mod.rs:282-285 | managing a window not yet managed keeps every handle in at most one place and makes the window managed |
| WmState.Without | src/wm/mod.rs:301 | the filter keeps exactly the clients whose handle is not w |
| WmState.WithoutConcat | src/wm/mod.rs:299-304 | filtering distributes over concatenation, so the clients kept stay in their relative order |
| WmState.WithoutAbsent | src/wm/mod.rs:299-304 | filtering out a handle that is absent changes nothing |
| WmState.WithoutWinsMembers | src/wm/mod.rs:299-304 | the handles after filtering are exactly the old handles other than w |
| WmState.WithoutKeepsNoDup | src/wm/mod.rs:299-304 | filtering keeps a workspace's handles free of duplicates |
| WmState.UnManage | src/wm/mod.rs:297-310 | afterwards no workspace holds w; every other workspace is filtered and otherwise unchanged; the selected one is exactly its filtered list passed through UpdateGeom, so it alone is re-arranged; the number and order of workspaces are kept |
| WmState.UnManageKeepsHandlesUnique | src/wm/mod.rs:297-310 | unmanaging keeps every handle in at most one place |
| WmState.UnManageAbsent | src/wm/mod.rs:297-310 | unmanaging a window that is not managed only re-arranges the selected workspace |
| WmState.TotalClientsUpdate | src/wm/mod.rs:282-285 | replacing one workspace changes the client total by the difference in that workspace's client count |
| Commands.Split | src/main.rs:339 | splitting on single spaces yields at least one token, and no token contains a space |
| Commands.JoinSplit | src/main.rs:339 | joining the tokens of a split with single spaces gives back the string |
| Commands.SplitJoin | src/main.rs:339 | splitting a space-joined list of space-free tokens gives back the tokens |
| Commands.SpawnCommand | src/main.rs:338-345 | a string argument yields a command whose first token is the program and whose other tokens are the arguments in order; joined back, they give the argument; any other argument yields nothing |
| Commands.SpawnRoundTrip | src/main.rs:339-343 | a program and arguments without spaces are the command of their own joined string |
| Commands.Quit | src/main.rs:350-352 | quitting clears the running flag and changes nothing else |
| Commands.Apply | src/main.rs:311-312 | running a binding changes at most the running flag, which is cleared exactly by quit; spawn keeps the state and, when its argument is a string, starts exactly the command SpawnCommand splits out of it |
| Events.HandleEvent | src/events.rs:15-30 | each listed event kind goes to its own handler: configure requests, key presses, map requests and property changes to theirs, a configure notify to the status refresh, a destroy notify to unmanaging followed by the status refresh; button presses and unlisted kinds change nothing and send nothing |
| Events.CleanMaskIsEquality | src/events.rs:101-103 | the cleaned masks are equal exactly when the masks are, so a binding matches on keysym and raw modifier equality |
| Events.HandleConfigureRequest | src/events.rs:35-51 | the state is never changed and exactly one request is sent: a managed window gets the synthetic event of a client with its handle; an unmanaged one has the request's x, y, width, height, border, sibling and detail forwarded under its value mask |
| Events.FirstMatch | src/events.rs:111-117 | the first binding whose keysym and modifiers match, and none exactly when no binding matches |
| Events.HandleKeyPress | src/events.rs:108-119 | with no matching binding the state is unchanged and nothing is sent |
| Events.KeyPressFirstMatch | src/events.rs:111-116 | a key press runs the first matching binding alone, and the bindings after it do not matter |
| Events.KeyPressChangesOnlyRunning | src/events.rs:108-119 | a key press changes at most the running flag, and clears it exactly when the first matching binding quits |
| Events.HandleMapRequest | src/events.rs:133-145 | a window whose attributes are missing or that sets override-redirect is ignored, as is one already managed; otherwise it is managed; nothing is sent |
| Events.MapRequestManages | src/events.rs:133-145 | after a map request for a window with attributes and no override-redirect it is managed, and the total grows by one exactly when it was not managed before |
| Events.HandlePropertyNotify | src/events.rs:150-153 | the status is refreshed only for a change on the root window; otherwise the state is unchanged |
| Events.DestroyRemovesWindow | src/events.rs:96-99 | after a destroy event no workspace holds the window, and the status text is refreshed |
| Events.PassiveEvents | src/events.rs:15-30 | button presses and unlisted kinds change nothing and send nothing; configure requests never change the state; a configure notify only refreshes the status |
| Events.HandleEventKeepsInvariants | src/events.rs:15-30 | every handler keeps the selection valid, the bars fitting and every handle in at most one place |
| MainLoop.CheckArgs | src/main.rs:91-99 | exactly the argument "-v" prints the version and exits 0; any other argument list with arguments prints the usage and exits 1; no arguments continues |
| MainLoop.XError | src/main.rs:120-130 | BadWindow, BadDrawable, BadMatch and BadAccess are ignored, and any other error code exits with status 1 |
| MainLoop.ScanRange | src/main.rs:186-191 | the scan returns false at the first index of the range with the same geometry, and true when there is none |
| MainLoop.IsUniqueGeomAsWritten | src/main.rs:185-192 | the check as written reports every geometry unique |
| MainLoop.IsUniqueGeom | src/main.rs:185-192 | the check, scanning 0..n, reports a geometry unique exactly when none of the first n entries has the same geometry |
| MainLoop.IsUniqueGeomCounterexample | src/main.rs:186 | with one recorded screen of the same geometry, the scan as written finds nothing and the scan 0..n finds it |
| MainLoop.KeyPress | src/main.rs:305-316 | the loop over the whole key table runs, in table order, every binding that matches |
| MainLoop.AllMatchesMeaning | src/main.rs:308-314 | running every match changes at most the running flag, which is cleared exactly when some matching binding quits; the commands started are exactly those of the matching spawn bindings |
| MainLoop.NoMatchFold | src/main.rs:308-315 | with no match the state is unchanged and nothing is started |
| MainLoop.SingleMatchFold | src/main.rs:308-315 | with a single match, running every match is running that one binding |
| MainLoop.SingleMatchAgrees | src/main.rs:305-316 | with a single matching binding the older key handler and the first-match one agree |
| MainLoop.RevisionsDifferOnDoubleBinding | src/main.rs:308-314 | two spawn bindings on the same key: the older handler starts both commands, the first-match handler only the first |
| MainLoop.HandleEvent | src/main.rs:213-225 | only key presses and map requests are handled; a map request is handled as in the newer dispatcher; a key press runs every matching binding in table order (AllMatches) and issues the commands they start, leaving the workspaces and the selection alone; every other kind changes nothing |
| MainLoop.RunSpec | src/main.rs:197-208 | events are handled in order while the state says running; an unhandled event is left only once the flag is cleared, and a stopped state handles nothing |
| MainLoop.Run | src/main.rs:197-208 | the loop tests the flag before each event and yields what RunSpec describes |
| MainLoop.QuitEndsRun | src/main.rs:203-205 | an event whose handler clears the flag is the last one handled, and the events after it are ignored |
| MainLoop.RunKeepsHandlesUnique | src/main.rs:197-208 | the main loop keeps every handle in at most one place |
| MainLoop.Setup | src/main.rs:144-183 | with no font loaded, setup exits with status 1; otherwise it yields the state of initialisation, workspace creation, bar assignment, status refresh and Num Lock refresh in that order, and the grabs of the configured keys under the refreshed mask |
| MainLoop.SetupStateValid | src/main.rs:159 | the state setup hands to the main loop has a valid selection of workspace 0, fitting bars, no client, unique handles, the running flag set and the bar window on every workspace, one workspace per tag in tag order |
| MainLoop.ShippedSetup | src/config.rs:18-30 | under the shipped configuration every workspace starts with the tiling layout and two masters, its bar at the bottom of the screen and the clients' area above it |

## Left out

- Integer widths: `i32` and `u32` overflow and wrap-around are not modelled; geometry is in unbounded integers. Where the source subtracts two `u32` values, the model requires that the result is not negative: `bh ≤ h` in `maxH`, `bh ≤ mh` in `updatebarpos`, and `xx ≤ ww` in the clamp of the status placement. Workspaces.Arrange and Workspaces.UpdateGeom require the bar to fit for every layout, although only the tile case computes `maxH`; the monocle, floating and grid layouts would accept `bh > h`. Every workspace of this model starts with the tile layout and nothing switches it.
- WmState.GetTextProp / WmState.UpdateStatus: the root window's WM_NAME is an input already decoded to text, and `XGetTextProperty` is not modelled. The source decodes the property bytes with `into_string().unwrap()` (src/wm/mod.rs:221), which panics when the name is not valid UTF-8, such as a Latin-1 STRING property. That panic is not modelled. It is reachable from every status refresh: setup, ConfigureNotify, DestroyNotify and a root PropertyNotify.
- Configuration.Action / Commands.Apply: the source's `config.rs` defines no key table, and the only binding functions shown are `spawn` and `quit` of `main.rs`, typed `fn(&Arg, &mut WM)`. The actions are closed to these two. `events.rs` calls its bindings with a by-value signature, `fn(&Arg, WM) -> WM` (src/events.rs:115), whose actions belong to a revision that is not shown; the model gives them the same spawn and quit semantics. Events.KeyPressChangesOnlyRunning and MainLoop.AllMatchesMeaning, which say a key press changes at most the running flag, hold for this closed action set only.
- Floating point: `mfact`, the clients' `mina`/`maxa` and the `f` field of the key argument union are not modelled. `Arg` is a tagged datatype with integer, unsigned and string variants.
- Commands.SpawnCommand: the source reads the string field of the untyped union whatever the binding stores; the model starts nothing for a non-string argument.
- Drawing: the bars (`workspace::drawBar`, the text and rectangles of `Monitor::drawbar`), text widths and fonts are not modelled. The font height is an input of `WmState.InitWm`.
- X server I/O: atoms, cursors, colour schemes, `XCreateWindow`/`XMapRaised` (the new bar window's id is an input of `WmState.UpdateBars`), `XUngrabKey`, `XGrabKey` (its calls are the returned grab list), `XSendEvent`/`XConfigureWindow` (returned as requests) and `XSync`.
- The per-client configure events that `updateGeom` sends after arranging.
- Clients.SetGeom / `client::show`, `client::hide`, `client::updateTitle`: these four functions are called (src/wm/workspace.rs:21-27, src/wm/mod.rs:240, src/wm/mod.rs:288) but not defined in the source. SetGeom is supplied from its uses in `tileArrange`: it sets x, y, w and h. `show` and `hide` only map and unmap windows, so they have no state effect here. `updateTitle` has type Client → Client and evidently sets the client's name; the model takes it as the identity, so a client's `name` stays "".
- Process spawning and `process::exit`: a spawn returns the command it would start; the panic when starting fails is not modelled. The exits are `MainLoop.Startup` and `MainLoop.ErrorAction` values.
- The server's answers are fixed for one run (`Events.Display`); a server whose answers change between events is not modelled. The event queue is a finite list, so an `XNextEvent` failure is the end of the list.
- `setup` (src/main.rs:144-183) is MainLoop.Setup without its server calls: opening the screen, `XChangeProperty`, `XDeleteProperty` and `XChangeWindowAttributes` on the root window. Its screen size, loaded font heights, bar window, root name, modifier map and keycodes are inputs.
- `checkotherwm` and `xerrorstart` (src/main.rs:113-117, 135-141): the exit with status 1 when another window manager already holds the root window is not modelled, because it depends on an error the server reports asynchronously.
- `cleanup` (src/main.rs:374-377) is the identity. `findPointedWindow` (src/wm/mod.rs:315-326) and `setRootBackground` (src/wm/mod.rs:98-102) only talk to the server and are called by nothing modelled here.
- The `Pertag` record and the `tagset`/`seltags` fields of a workspace, which are initialised and never read.
- The no-op arrange functions of `main.rs` that the layout table of `config.rs` names are not reconciled with the workspace layouts; a layout is an `ArrangeKind` dispatched to the functions of `workspace.rs`.
- Index panics become preconditions. The source indexes `wss[0]` in `updateBars` (src/wm/mod.rs:195), `wss[selwsindex]` in `manage` and `unManage` (src/wm/mod.rs:282-285, 307-308) and `unique[i]` in `isuniquegeom` (src/main.rs:187). The model excludes the inputs that would panic: WmState.WithBars and WmState.UpdateBars require a workspace; WmState.AfterManage, WmState.Manage, WmState.UnManage, Events.HandleMapRequest, Events.HandleEvent, MainLoop.HandleEvent, MainLoop.RunSpec and MainLoop.Run require `WmState.Valid` (a valid selection, and bars that fit); MainLoop.IsUniqueGeom requires `n` not to exceed the recorded screens. MainLoop.Setup and MainLoop.SetupState require a tag, since `updateBars` indexes `wss[0]` of the created workspaces; the missing font of `fonts[0]` is the NoFont exit. The panics themselves are not modelled.
- Workspaces.FindFromWindow: `client::findFromWindow`, called at src/events.rs:37, src/events.rs:140 and src/main.rs:328, is not defined in the source. The model supplies the commented-out `fromWindow` at src/wm/client.rs:50-60: the first client with the handle, scanning the workspaces in order.
- The key press handlers cast the event's keycode to `u8` (src/events.rs:110, src/main.rs:307). Keycodes are unbounded naturals in the model; the cast changes nothing for X keycodes, which lie in 8..255.
- The monitor fields `sel` and `stack`, the workspace field `sellt` and the monitor's equality by number (src/wm/monitor.rs:164-168) are not modelled. `drawbar` uses that equality only to ask whether it draws the selected monitor, which is the `isSelected` input of Monitors.Monitor.PlaceStatus.
- The older `main.rs` dispatcher's commented-out handlers (button press, configure request, enter notify) are not modelled.

## Findings

| source | as written | input that shows it | evidently intended | confidence | as-written member | corrected member |
|---|---|---|---|---|---|---|
| src/main.rs:185-192 | `isuniquegeom` loops over `n..0`, which is empty for every n, so it always returns true | unique = [g], n = 1, info = g with g = screen 0 at (0, 0), 1920×1080 | scan the recorded screens `0..n` and report false for a duplicate geometry | not executed | MainLoop.IsUniqueGeomAsWritten, MainLoop.IsUniqueGeomCounterexample | MainLoop.IsUniqueGeom |
