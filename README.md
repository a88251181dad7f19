# PAM shortcut manager: profile registry and server merge, in Dafny

The application keeps a list of connection shortcuts (RDP and SSH
profiles). The home page edits that list through a form and then stores
it through `PUT /api/servers`, which writes it to a JSON file. This
project models the state logic of those two places and proves what each
operation does to the list.

- **`src/app/page.tsx`, the home page** (modules `Profiles` and `Registry`).
  - The form (`Draft`) is normalised into a stored record (`Profile`) by `upsert`.
  - The `setProfiles` updater either replaces a record with the same id in place or puts a new one first.
  - `remove` filters a record out; `startEdit` loads a record into the form.
  - The displayed list is the search filter followed by the letter filter.
  - "Download all" joins one section per record with `\r\n`.
  - The page state (list and form) is the class `Registry.Home`. Its methods change that state in place and are specified by the pure functions beside it.
- **`src/app/api/servers/route.ts`, `PUT`** (module `Servers`).
  - A request body is either not JSON, not an array, or an array of arbitrary JSON values.
  - The loop keys each usable item as `kind:host`, with the host trimmed and lower-cased.
  - A `Map` keeps each key where it first appeared and holds the last item seen for it.
  - `Put` is a method with the loop and its invariants. It is proved equal to the specification function `Merged`, and the properties of the merge are lemmas about `Merged`.
- **Supporting modules.**
  - `Text`: ECMAScript `trim` over its exact white-space set, ASCII case mapping, `startsWith` and `includes`.
  - `Seqs`: filter, subsequence, `findIndex` and `join`.
  - `Wrappers`: `Option`.

## Model

| member | source | states |
|---|---|---|
| Profiles.Normalize | src/app/page.tsx:138-153 | the record `upsert` builds from the form. Its id is the form's id when present (even the empty string), otherwise the fresh one. Name, host and note are trimmed. Port (default 22) and username appear only for SSH. RDP username, full-screen and admin flags appear only for RDP, and a missing flag is false. The password is kept only when it is non-blank after trimming. `createdAt` is empty exactly when the form had a non-empty id; `updatedAt` is now. The result is always in normal form |
| Profiles.EditRoundTrip | src/app/page.tsx:121-153 | loading a normal-form record with a non-empty id into the form (`startEdit`) and normalising it again gives the same record, except `createdAt` is cleared and `updatedAt` is now |
| Registry.AdoptExistingId | src/app/page.tsx:158-166 | the key check as written: only the id may change. It changes only when the base id is empty and a record with the same kind and lower-cased host exists, and in that case it always takes the first such record's id |
| Registry.UpdateRegistry | src/app/page.tsx:168-175 | with no record of that id, the record goes first and the old list follows unchanged; its `createdAt` is its own if non-empty, and exactly `now` otherwise. Otherwise the same length, the first record with that id is replaced by the new one keeping its old `createdAt`, and every other record is unchanged |
| Registry.Upserted | src/app/page.tsx:137-176 | an invalid normalised record leaves the list unchanged. A valid one from a form whose id is absent or non-empty goes straight to the id update: the key check cannot change it. A valid one from a form whose id is the empty string first passes the key check (`AdoptExistingId`), then the id update |
| Registry.SaveUnchangedRefreshesOnly | src/app/page.tsx:121-176 | editing a stored record and saving it without changes replaces it in place and only refreshes `updatedAt` |
| Registry.Removed | src/app/page.tsx:180-181 | no remaining record has the id. Every record without the id keeps its count, in the original order. The list is unchanged when no record has the id |
| Registry.Filtered | src/app/page.tsx:89-104 | the shown list holds exactly the records matching the trimmed, lower-cased search (in name or host) and the lower-cased letter (at the start of the trimmed name). Each keeps its count and order; an empty search or unset letter filters nothing |
| Registry.CombinedSectionAt | src/app/page.tsx:190-193 | the combined script is the per-record sections (header line plus script) in list order. Each section is followed by `\r\n`, except the last, which ends the text |
| Registry.CreateDuplicatesKeyAsWritten | src/app/page.tsx:163-166 | as written, a new SSH form for host `H` saved beside a stored SSH record for host `h` gives two records with the same kind-and-host key |
| Registry.AdoptExistingIdIntended | src/app/page.tsx:163-166 | the intended key check: a form without an id (or with the empty id) takes the id of the first record with the same key; otherwise the record is unchanged |
| Registry.CreateKeepsIdentityIntended | src/app/page.tsx:157-176 | with the intended check, saving a new form into a list with unique ids and keys, under an unused fresh id, keeps ids and keys unique. When the key already exists, the list keeps its length |
| Registry.Home.constructor | src/app/page.tsx:29-43 | the page starts with an empty list and a blank form |
| Registry.Home.ResetDraft | src/app/page.tsx:106-119 | the form becomes blank (RDP, port 22, full-screen on, admin off); the list is untouched |
| Registry.Home.StartEdit | src/app/page.tsx:121-135 | the form holds the record with the form defaults for missing fields; the list is untouched |
| Registry.Home.Upsert | src/app/page.tsx:137-178 | the list becomes `Upserted` of the old list and form. The form is cleared exactly when the normalised record is valid |
| Registry.Home.Remove | src/app/page.tsx:180-183 | the list becomes `Removed` of the old list. The form is cleared exactly when it was editing that id |
| Registry.Home.FilteredProfiles | src/app/page.tsx:89-104 | the records shown from the current list are exactly the stored ones that pass both filters |
| Text.TrimIsInfix | src/app/page.tsx:140-150 | `trim` removes exactly the leading and trailing white space: the result is a contiguous slice, everything cut away is white space, and a non-empty result neither starts nor ends with white space |
| Text.TrimIdempotent | src/app/page.tsx:140-150 | trimming twice is trimming once, which is why a saved record is in normal form |
| Text.TrimEmptyIff | src/app/api/servers/route.ts:48-49 | a trimmed host is empty exactly when the host is all white space |
| Servers.MergeIgnoresHostCase | src/app/api/servers/route.ts:43-51 | keys ignore host case and surrounding white space: two objects with the same truthy kind whose string hosts agree once trimmed and lower-cased merge into one element, the later object |
| Servers.MergeIgnoresHostCaseExample | src/app/api/servers/route.ts:43-54 | an RDP object for host `H` followed by one for host ` h` is stored once, as the second |
| Servers.UnprintableKindAborts | src/app/api/servers/route.ts:46-50 | an object with a truthy kind and a non-blank string host, whose kind is an object with its own `toString` key (or an array holding one), makes `${kind}` throw, so the whole body aborts |
| Servers.UnprintableKindExample | src/app/api/servers/route.ts:46-61 | the body `[{"kind": {"toString": 1}, "host": "h"}]` aborts the loop, so `PUT` answers 500 |
| Servers.KeyOrderIsFirstSeen | src/app/api/servers/route.ts:44-51 | the `Map`'s keys are exactly the keys that occur, in the order of their first occurrence |
| Servers.LatestIsLastSeen | src/app/api/servers/route.ts:44-51 | the `Map` holds, for each key, the last item with that key |
| Servers.Merged | src/app/api/servers/route.ts:54 | the merged list is no longer than the body, and each element is one of the body's items |
| Servers.MergeKeysDistinct | src/app/api/servers/route.ts:43-54 | every merged element is kept, and no two share a key |
| Servers.MergeComplete | src/app/api/servers/route.ts:43-54 | every key some item is kept under is the key of a merged element |
| Servers.MergeLastWins | src/app/api/servers/route.ts:51-54 | each merged element is the last item of the body with its key |
| Servers.MergeFirstSeenOrder | src/app/api/servers/route.ts:51-54 | merged elements stand in the order in which their keys first occur |
| Servers.MergeDropsUnkept | src/app/api/servers/route.ts:46-49 | an item that is not kept is not in the merged list |
| Servers.MergeIdempotent | src/app/api/servers/route.ts:43-54 | merging a merged list changes nothing, so a stored file is a fixed point of `PUT` |
| Servers.Put | src/app/api/servers/route.ts:36-63 | a body that is not JSON gives 500 and a non-array gives 400. For an array: 500 if some item makes the loop throw (a host that is present but neither null nor a string, or a kept item whose kind cannot be written as text); otherwise success, with exactly `Merged` of the items written |

## Left out

- The React rendering, the other hooks and the fetch calls are not modelled: the `GET` load with its fallback, the save effect that sends the list to `PUT`, `useMemo` and the JSX. Only the state they read and write is modelled.
- `GET /api/servers`, `ensureDataFile` and the data directory choice are not modelled. They are file-system I/O; `PUT`'s own write is taken to succeed, so a failing write (also a 500) is not modelled.
- `uid()` and `nowIso()` are parameters `freshId` and `now`. One `now` stands for every clock reading inside one save.
- `src/lib/shortcuts.ts` is not part of this model. `isValidProfile` and `buildBatScript` are parameters. `defaultProfiles` is used only by the load fallback and `GET`, both left out, as are `downloadBat`, `buildBatFilename` and `downloadTextFile`.
- `src/lib/web.ts` is not part of this model.
- Profiles.Normalize: `Number(draft.port ?? 22)` is modelled on integer ports only; number coercion of text and non-integer values are not modelled.
- Text.Lower: `toLowerCase` and `toUpperCase` are modelled for ASCII letters only; other Unicode case mappings are not.
- Servers.Merged: JSON numbers are modelled as unbounded integers written out in full decimal when a `kind` is turned into text (`${kind}`). JavaScript differs at large magnitudes: it writes integers of 1e21 and above as `1e+21` and rounds integers above 2^53 when parsing. Two distinct integer kinds may then share a key in JavaScript but not in the model. Non-integer numbers are not modelled.
- Registry.UpdateRegistry: stored records are modelled with exactly the thirteen fields of a shortcut profile. Keys outside them, which records read back from the server may carry, are not modelled. The spread `...existing` on line 174 of `src/app/page.tsx` keeps such keys on an in-place edit.
- The form's `canSave` and `editing` flags only drive the page's buttons and are not modelled.
- A missing RDP full-screen flag: the blank form and `startEdit` default RDP full-screen to on, but `Boolean(draft.rdpFullscreen)` gives false for a missing flag. The model follows that code.
- The page does not guarantee unique ids or keys as written (see Findings). `Registry.Home.Upsert` follows the code; the intended key check is modelled beside it.

## Findings

| source | as written | input that shows it | evidently intended | confidence | as-written member | corrected member |
|---|---|---|---|---|---|---|
| src/app/page.tsx:164 | the check for a new form tests `!base.id`, but `base.id` is already `draft.id ?? uid()`, so it is empty only when the form's id is the empty string | stored SSH record `{id: "a", host: "h"}`, then a new SSH form with host `H` and fresh id `b`: two records with the key `ssh:h` | a new form whose kind and host match a stored record edits that record (the comment on line 163) | not executed | Registry.CreateDuplicatesKeyAsWritten | Registry.CreateKeepsIdentityIntended |
