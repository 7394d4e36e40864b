# Link page editor: ordered-list reconciliation, in Dafny

This project models the core decision logic of a personal link page. The page has a public profile that lists
links grouped under sections, and a password-gated editor for the owner. The parts modelled are:

- **Drag-reorder of sections and of the links of one section.** The editor copies its local list and looks up
  the dragged item and the target with `findIndex`. It removes the dragged item with `splice`, then inserts it at
  the target's index from *before* the removal. Then it issues one awaited position write per element, in list
  order, with the element's new zero-based index.
- **Drop gating.** A drop is ignored when nothing is being dragged or the type tag differs. Otherwise the matching
  reorder runs and the drag state is cleared. A drop onto the item itself issues nothing, and so does a link
  dropped onto a link of another section.
- **Append positions.** A new section is inserted at the number of sections known locally. A new link is inserted
  at its section's link count, or at 0 when the section is unknown.
- **Grouping.** Each section is shown with the links whose section id is its id, in delivered order. The editor
  and the public page use the same rule.
- **Small decision procedures.** These are the change-password checks, the login decision, and the public page's
  choice between the loading, not-found and profile screens.

The remote store is modelled as the log of writes the editor issues (`Entities.StoreWrite`), in issue order.
Store lookups become parameters: `Fetched<T> = Found(value) | FetchError`. `Reorder.ApplyPositions` gives the
positions a table holds once a sequence of writes has landed, with the last writer winning. It is the reference
against which the reconciliation invariant is proved. With distinct ids, and both items in the local list, the
rows of the scope end up holding positions that form exactly 0..n-1, one per row, in the spliced order
(`Reorder.ReorderPositionsDense`).

The array primitives follow JavaScript exactly. `findIndex` yields -1 for a missing id, and `splice` with a
negative start counts from the end. The model therefore also covers what happens when the local list is stale:

- When the dragged item is no longer in the list, `splice(-1, 1)` removes the *last* element instead. That element
  gets no position write and the dragged id gets one (`Reorder.StaleDraggedDropsLast`).
- When a dragged link's section is missing from the local list, `find` yields `undefined`. Reading its `links`
  then throws, so no write is issued and `handleDrop` never reaches the lines that clear the drag state
  (`AdminDashboard.LinkDropWrites` returns `None`; `Dashboard.HandleDrop` keeps the drag state).

Two details of the code shape the model:

- A failed position write is caught and logged inside `updateSection`/`updateLink`
  (AdminDashboard.jsx:197-199, 243-245). The reorder loop goes on and no failure is reported to the caller.
- The "current password" check is not local. After the two local checks on the new password, the stored
  password is fetched and compared with the one typed in (AdminDashboard.jsx:118-131).

Modules: `Entities` (records and store writes), `Grouping`, `Reorder` (the splice, position writes and their
effect on the store), `PasswordChange`, `AdminDashboard` (class `Dashboard`), `AdminLogin` (class `LoginPage`),
`PublicView`.

## Model

| member | source | states |
|---|---|---|
| Grouping.LinksOf | linktree-clone/src/pages/PublicView.jsx:109 | the links kept are exactly those of the given section: each kept link is from the input and has that section id, and each input link with that section id is kept |
| Grouping.LinksOfConcat | linktree-clone/src/pages/PublicView.jsx:109 | filtering commutes with concatenation, so the links keep their delivered relative order |
| Grouping.LinksOfExtremes | linktree-clone/src/pages/PublicView.jsx:109 | a list whose links all belong to the section is kept whole; one with none of them yields nothing |
| Grouping.LinksOfPosition | linktree-clone/src/pages/PublicView.jsx:109 | a link of the section is listed under it at the index equal to the number of the section's links delivered before it |
| Grouping.LinksOfKeepsOrder | linktree-clone/src/pages/PublicView.jsx:109 | two links of the section delivered in order i < j are listed in that order under the section |
| Grouping.GroupLinks | linktree-clone/src/pages/AdminDashboard.jsx:55-58 | one group per section, in section order; a link is in group k if and only if it is a delivered link of section k |
| Grouping.LinkInAtMostOneGroup | linktree-clone/src/pages/AdminDashboard.jsx:55-58 | a link shown under two sections belongs to both, so it is under at most one section when section ids are distinct |
| AdminDashboard.Dashboard.SyncSections | linktree-clone/src/pages/AdminDashboard.jsx:53-63 | both branches of the effect (some sections, none) leave the local groups equal to the grouping of sections and links |
| Reorder.FindIndex | linktree-clone/src/pages/AdminDashboard.jsx:338-339 | -1 exactly when the id is absent; otherwise an index holding the id with no earlier occurrence |
| Reorder.SpliceStart | linktree-clone/src/pages/AdminDashboard.jsx:341-342 | splice's start index: a negative start counts from the end, clamped to 0..length |
| Reorder.SpliceRemove | linktree-clone/src/pages/AdminDashboard.jsx:341 | removes exactly the element at the start index when there is one (length minus one, same multiset less that element, the rest shifted left), else leaves the list alone |
| Reorder.SpliceInsert | linktree-clone/src/pages/AdminDashboard.jsx:342 | the new element sits at the start index; the elements before it are unchanged, the ones after it are shifted right, and the multiset gains exactly that element |
| Reorder.Reordered | linktree-clone/src/pages/AdminDashboard.jsx:337-342 | the spliced list is as long as the input (just the dragged id when the input is empty), contains the dragged id, and has it at the index the target held before the removal |
| Reorder.ReorderedIsPermutation | linktree-clone/src/pages/AdminDashboard.jsx:337-342 | with both ids in the list, the reordered list has the same length and the same multiset of ids |
| Reorder.ReorderedDistinct | linktree-clone/src/pages/AdminDashboard.jsx:337-342 | with distinct ids, the reordered list has distinct ids, and the dragged id occurs in it exactly once |
| Reorder.LaterOntoEarlier | linktree-clone/src/pages/AdminDashboard.jsx:338-342 | dragging a later item onto an earlier one puts it at the target's index, shifting the target and everything up to its old place one right; the rest is unchanged |
| Reorder.EarlierOntoLater | linktree-clone/src/pages/AdminDashboard.jsx:338-342 | dragging an earlier item onto a later one shifts the items up to and including the target one left and puts it at the target's old index, just after the target; the rest is unchanged |
| Reorder.ReorderExamples | linktree-clone/src/pages/AdminDashboard.jsx:338-342 | on [A,B,C,D]: D onto B gives [A,D,B,C], and A onto D gives [B,C,D,A] |
| Reorder.StaleDraggedDropsLast | linktree-clone/src/pages/AdminDashboard.jsx:338-342 | when the dragged id is absent, the result still has the original length, but it holds the list without its last element plus the dragged id |
| Reorder.PositionWrites | linktree-clone/src/pages/AdminDashboard.jsx:345-347 | exactly one write per element; write i is (list[i], i), so the positions ascend from 0 |
| Reorder.ApplyPositions | linktree-clone/src/pages/AdminDashboard.jsx:189-199 | applying writes never loses the position of a row, and the last write to the table decides its row's position (last writer wins) |
| Reorder.ApplyPositionWrites | linktree-clone/src/pages/AdminDashboard.jsx:345-347 | once the writes of a list with distinct ids have landed, row list[i] holds position i, and every other row keeps its position or absence |
| Reorder.ReorderPositionsDense | linktree-clone/src/pages/AdminDashboard.jsx:337-347 | after a reorder whose writes all land, row r[i] holds position i, every row of the scope holds a position in 0..n-1, and no two rows share one |
| AdminDashboard.Dashboard.WritePositions | linktree-clone/src/pages/AdminDashboard.jsx:345-347 | the loop appends exactly the position writes of the list, in list order |
| AdminDashboard.Dashboard.ReorderSections | linktree-clone/src/pages/AdminDashboard.jsx:334-348 | a self-drop appends nothing; otherwise it appends the position writes of the spliced section list |
| AdminDashboard.SectionDropWrites | linktree-clone/src/pages/AdminDashboard.jsx:334-348 | a self-drop issues nothing; otherwise one write per section (one write when the list is empty), all to the sections table at positions 0, 1, 2, ... in order, and the write at the target's old index places the dragged section there |
| AdminDashboard.SectionDropDense | linktree-clone/src/pages/AdminDashboard.jsx:334-348 | a section drop issues exactly n writes with positions 0..n-1 in order, and they leave the sections holding a dense permutation of 0..n-1 |
| AdminDashboard.Dashboard.ReorderLinks | linktree-clone/src/pages/AdminDashboard.jsx:350-368 | a self-drop or a cross-section drop appends nothing and completes; a missing section throws with nothing appended; otherwise the spliced link list's position writes are appended |
| AdminDashboard.LinkDropWrites | linktree-clone/src/pages/AdminDashboard.jsx:350-368 | a self-drop or a drop onto a link of another section issues nothing; the drop throws if and only if it is neither and no group has the dragged link's section; any writes go to the links table at positions 0, 1, 2, ... in order |
| AdminDashboard.LinkDropDense | linktree-clone/src/pages/AdminDashboard.jsx:350-368 | a link drop within one section issues one write per link of the section, at positions 0..n-1 in order, and they leave the links holding a dense permutation of 0..n-1 |
| AdminDashboard.FindSection | linktree-clone/src/pages/AdminDashboard.jsx:354-355 | None exactly when no group has the section id; otherwise the first group of the list with that id |
| AdminDashboard.Dashboard.DragStart | linktree-clone/src/pages/AdminDashboard.jsx:308-312 | the dragged item and its type tag are set together |
| AdminDashboard.Dashboard.HandleDrop | linktree-clone/src/pages/AdminDashboard.jsx:319-332 | with nothing dragged or a mismatched type, nothing changes. Otherwise the reorder's writes are appended and the drag state is cleared, except when the link reorder throws, which keeps the drag state and adds no writes |
| AdminDashboard.DropWrites | linktree-clone/src/pages/AdminDashboard.jsx:323-327 | a section drop never throws; a throwing drop is a link drop whose section is missing from the local list; a drop onto the item itself issues nothing |
| AdminDashboard.Dashboard.AddSection | linktree-clone/src/pages/AdminDashboard.jsx:173-187 | inserts "New Section" at position = number of local sections |
| AdminDashboard.Dashboard.AddLink | linktree-clone/src/pages/AdminDashboard.jsx:217-233 | inserts "New Link" to https://example.com at the section's link count, or 0 when the section is unknown |
| AdminDashboard.NewLinkPosition | linktree-clone/src/pages/AdminDashboard.jsx:219-226 | 0 when no group has the section id; otherwise the number of links of the first group with that id |
| AdminDashboard.NewLinkPositionAfterSync | linktree-clone/src/pages/AdminDashboard.jsx:219-226 | after grouping, the section is found if and only if some section has that id, and the new link's position is then the number of its links; otherwise it is 0 |
| PasswordChange.Decide | linktree-clone/src/pages/AdminDashboard.jsx:106-145 | the result is Mismatch if and only if the new password and confirmation differ. It is TooShort if and only if they agree but have fewer than 6 characters. Once both checks pass, it is FetchFailed if and only if the lookup failed, and WrongCurrent if and only if the stored password differs from the current one given. The update is issued if and only if both checks pass and the stored password equals the current one given. The result is Changed if and only if the update is issued and succeeds |
| PasswordChange.ValidationPrecedesFetch | linktree-clone/src/pages/AdminDashboard.jsx:106-116 | when a local check fails, the outcome is the same whatever the store would answer, and nothing is fetched or written; a mismatch takes priority over length |
| PasswordChange.Message | linktree-clone/src/pages/AdminDashboard.jsx:107-149 | every outcome shows a non-empty message, and the success message is shown exactly on success |
| AdminDashboard.Dashboard.HandlePasswordChange | linktree-clone/src/pages/AdminDashboard.jsx:102-151 | the message is that of the decided outcome; the new password is written only when the update is issued; all three fields are reset to empty exactly on success |
| AdminDashboard.Dashboard.EditCurrentPassword | linktree-clone/src/pages/AdminDashboard.jsx:678 | typing into the current-password field replaces that field and keeps the other two |
| AdminDashboard.Dashboard.EditNewPassword | linktree-clone/src/pages/AdminDashboard.jsx:704 | typing into the new-password field replaces that field and keeps the other two |
| AdminDashboard.Dashboard.EditConfirmPassword | linktree-clone/src/pages/AdminDashboard.jsx:731 | typing into the confirmation field replaces that field and keeps the other two |
| AdminLogin.DecideLogin | linktree-clone/src/pages/AdminLogin.jsx:25-34 | LoggedIn if and only if the fetched password equals the entered one; LoginError if and only if the fetch failed; InvalidPassword if and only if the fetched password differs |
| AdminLogin.ErrorMessage | linktree-clone/src/pages/AdminLogin.jsx:27-34 | the error is empty exactly on success; otherwise "Invalid password" or "Error logging in. Please try again." |
| AdminLogin.SessionKeysDistinct | linktree-clone/src/pages/AdminLogin.jsx:28 | distinct users get distinct session flags `admin_<username>` |
| AdminLogin.LoginPage.EnterPassword | linktree-clone/src/pages/AdminLogin.jsx:108 | typing into the password field sets the entered password |
| AdminLogin.LoginPage.BeginAttempt | linktree-clone/src/pages/AdminLogin.jsx:15-16 | the error is cleared and loading is set before the lookup |
| AdminLogin.LoginPage.FinishAttempt | linktree-clone/src/pages/AdminLogin.jsx:25-37 | on a match the flag `admin_<username>` is set to "true" and the route goes to the dashboard; otherwise the matching error is shown and the flag and route are unchanged; loading is false on every path |
| AdminLogin.LoginPage.HandleLogin | linktree-clone/src/pages/AdminLogin.jsx:13-38 | while the lookup is outstanding the error is empty and loading is true. Afterwards loading is false, and the flag is "true" if and only if the login succeeded or it already was |
| PublicView.Render | linktree-clone/src/pages/PublicView.jsx:10-50 | loading screen if and only if loading; not-found if and only if not loading with no profile. Otherwise one group per section holding exactly that section's links, in order, and the "No links yet" placeholder if and only if there are no sections |
| PublicView.LoadingHidesData | linktree-clone/src/pages/PublicView.jsx:10-29 | while loading, the screen does not depend on the profile, the sections or the links |
| PublicView.PageGroupsLinks | linktree-clone/src/pages/PublicView.jsx:108-109 | on the profile page a link listed under two sections belongs to both, so it is under at most one when the section ids are distinct |

## Left out

- linktree-clone/src/hooks/useRealtimeProfile.js is not part of this model. That covers the asynchronous fetch chain, the ordering by `position` (the store does it), the realtime subscriptions and their teardown. Its `loading`, `profile`, `sections` and `links` become inputs of `PublicView.Render` and `Dashboard.SyncSections`.
- linktree-clone/src/config/supabase.js and linktree-clone/src/App.jsx are not part of this model: a client wrapper and a route table.
- Concurrency is not modelled. A refresh that interleaves with a reorder's awaited writes is out of scope; each awaited write is an append to the log, in issue order.
- Failed store calls: a position write that fails is swallowed (AdminDashboard.jsx:197-199, 243-245), so the log records every request issued. `ApplyPositions` and the lemmas built on it describe the case where all writes land.
- The insert requests of `addSection`/`addLink` are logged as issued. Their error handling only writes to the console.
- Image upload, profile-field updates, colour edits, section/link field updates other than `position`, deletes, `confirm`/`alert` dialogs, logout, the redirect when the session flag is missing, and the editor's own "Loading..." guard: plumbing around the store with no decision logic of the kind modelled here.
- `setTimeout` auto-dismissal of messages, `console.error`, `preventDefault`, `dataTransfer` settings, and all rendering and styling.
- The intermediate empty password message (AdminDashboard.jsx:104), visible only while the password lookup is outstanding. `HandlePasswordChange` states the final message.
- AdminDashboard.Dashboard.HandlePasswordChange: counts the length of the new password in Unicode scalar values, whereas JavaScript's `length` counts UTF-16 code units. A password made of characters outside the Basic Multilingual Plane can pass the 6-character check in the source with fewer than 6 characters.
- PasswordChange.Decide: measures length the same way as HandlePasswordChange, in Unicode scalar values rather than UTF-16 code units.
- Event propagation between nested draggable elements is not modelled. A section's draggable element
  (AdminDashboard.jsx:904-908) contains its links' draggable elements (1036-1044), and no handler stops
  propagation, so one browser gesture can reach both handlers. `DragStart` and `HandleDrop` model one handler call at a time.
- React's stale closures are not modelled. `handleDrop` reads the drag state of the last render, and the model reads the current fields.
- A drag item whose type tag disagrees with its kind is excluded by `Dashboard.Valid()`. The source always sets and clears the two together.
