# Document viewer navigation, section cards and document upload — a Dafny model

This project models the core of a Next.js reading app. The app shows a tree
of sections (headings with nested child lists) and keeps the reader's
position in the tree in the `section` query parameter of the URL. The model
covers four parts:

- **The viewer** (`app/components/DocumentViewer.tsx`). This is the class
  `Viewer.DocumentViewer`, holding the fetched document, the `loading` flag,
  the breadcrumb trail `activePath`, the `currentSections` shown as cards,
  the query string, the URLs pushed to the router and the links opened.
  - The effect that resolves the `section` parameter against the tree is the
    loop `Resolver.ResolvePath`. That loop is proved equal to the recursive
    specification `Resolver.Resolve`, whose greedy first-match walk
    `Resolver.Walk` is characterised by lemmas.
  - `navigateToSection` is `Viewer.DocumentViewer.NavigateToSection`.
  - The round-trip lemmas show that the path it writes resolves, on the next
    run of the effect, to the trail and children it just built.
- **Section identifiers** (module `SectionId`): the slug of a heading, and
  the `/`-joined path of slugs (module `Text`).
- **The section card** (`app/components/SectionCard.tsx`). This is the class
  `Card.SectionCard` over the pure transition function `Card.Step`. It is
  proved that `showSubsections` can never become true, so the subsection
  pills are never rendered.
- **The admin upload** (`app/admin/page.tsx` and
  `app/api/admin/upload-document/route.ts`):
  - The page's JSON validator (`Admin.Validate`) is proved equivalent to an
    independent shape predicate.
  - The page's handlers are the class `Admin.AdminPage`.
  - The route's check chain and upsert are the function `UploadRoute.Post`.
  - Module `UploadHandoff` proves that every body the page sends is accepted
    and stored by the route.

Values produced by `JSON.parse` are the datatype `JsonValue.Json`, with
JavaScript truthiness, property reads (a read on `null` throws) and
`String(...)` written out.

Notes on the source's behaviour:

- **Slug separator.** The slug joins heading fragments with `-`
  (`DocumentViewer.tsx:63-66`, `:126-129`).
- **Resolved trail entries.** Entries built by the resolver carry no
  section: the `section:` field is commented out at `:76`. Entries pushed by
  a click do carry it.
- **Failed fetch.** A failed fetch leaves `loading` true, so the viewer
  keeps showing "Loading document..." and never reaches the "Document not
  found" screen (`:35-41`, `:164-170`). `Viewer.DocumentViewer.Rendered`
  proves that the not-found screen is unreachable.
- **Duplicate slugs.** The path does not identify a section when two
  siblings share a slug. Resolving always picks the first of them
  (`Viewer.ReloadPicksFirstSameSlug`), so the round trip holds only for the
  first section with a given slug (`Viewer.NavigateRoundTrip` requires
  this).
- **Empty path.** A top-level section whose heading gives an empty slug
  writes `section=` (`:151-156`). An empty `section` is read as no section
  (`:51`), so a reload shows the top-level sections again, and
  `Viewer.NavigateRoundTrip` requires the written path to be non-empty.

## Model

| member | source | states |
|---|---|---|
| Text.Join | app/components/DocumentViewer.tsx:151-154 | `join("/")` of no parts is empty, and otherwise starts with the first part; `Text.SplitJoin` and `Text.JoinSplit` show it inverts `split` |
| Text.Split | app/components/DocumentViewer.tsx:53 | `split("/")` gives at least one part, and no part contains the separator |
| Text.JoinSplit | app/components/DocumentViewer.tsx:53 | joining the parts of a split with the separator gives back the string |
| Text.SplitJoin | app/components/DocumentViewer.tsx:151-154 | splitting a join of separator-free parts gives back the parts |
| Text.SplitAround | app/components/DocumentViewer.tsx:53 | splitting `a + "/" + b` is splitting `a` then `b` |
| Text.JoinNonEmpty | app/components/DocumentViewer.tsx:151-154 | a join with a non-empty part is non-empty |
| Text.Trim | app/admin/page.tsx:75 | `trim()` is no longer than what follows the leading white space; `Text.TrimIsSlice` and `Text.TrimEmptyIffBlank` characterise it |
| Text.LeadingSpaces | app/admin/page.tsx:75 | counts exactly the white space at the start |
| Text.TrailingSpaces | app/admin/page.tsx:75 | counts exactly the white space at the end |
| Text.TrimIsSlice | app/admin/page.tsx:75 | `trim()` is the slice between the leading and trailing white space, and it neither starts nor ends with white space |
| Text.TrimEmptyIffBlank | app/admin/page.tsx:75 | `!title.trim()` holds exactly when the title is all white space |
| Text.TrimOfTrimmed | app/admin/page.tsx:89 | a string with no white space at either end is its own trim |
| Text.TrimIdempotent | app/admin/page.tsx:75-89 | trimming twice equals trimming once, so the title sent is already trimmed |
| DocumentModel.AnyNested | app/components/DocumentViewer.tsx:83-85 | `children.some(Array.isArray)` holds exactly when some child is a nested list |
| DocumentModel.NestedLists | app/components/DocumentViewer.tsx:88 | the filter keeps no more entries than there are children |
| DocumentModel.NestedListsMembers | app/components/DocumentViewer.tsx:88 | the filter keeps exactly the nested-list children |
| DocumentModel.GuardedChildSections | app/components/DocumentViewer.tsx:138-147 | the guarded extraction (the same guard as `:80-92`) equals the unguarded filter-then-flatten `ChildSections` on every section |
| DocumentModel.ChildSections | app/components/SectionCard.tsx:27-32 | a section with any child sections has `hasChildSections`; `DocumentModel.ChildSectionsMembers` gives its members |
| DocumentModel.NestedFlatHasNested | app/components/DocumentViewer.tsx:80-92 | a non-empty flattening of the nested lists implies some child is a nested list |
| DocumentModel.TextChildAddsNothing | app/components/DocumentViewer.tsx:87-89 | a string child contributes no navigable section |
| DocumentModel.NestedChildContributes | app/components/DocumentViewer.tsx:87-89 | a nested list contributes its sections in order, at its position |
| DocumentModel.ChildSectionsMembers | app/components/DocumentViewer.tsx:87-89 | a section is navigable exactly when it sits in some nested-list child |
| DocumentModel.EmptyNestedListCounterexample | app/components/SectionCard.tsx:27-32 | the converse fails: an empty nested list gives `hasChildSections` but no child sections |
| SectionId.ToLower | app/components/DocumentViewer.tsx:65 | lower-casing keeps the length |
| SectionId.ToLowerPointwise | app/components/DocumentViewer.tsx:65 | each character is lower-cased in place |
| SectionId.ReplaceNonSlug | app/components/DocumentViewer.tsx:66 | the replacement keeps the length |
| SectionId.ReplaceNonSlugPointwise | app/components/DocumentViewer.tsx:66 | characters in `[a-z0-9-]` are kept and all others become `-`, in place |
| SectionId.Slug | app/components/DocumentViewer.tsx:63-66 | the slug has the length of the `-`-joined heading; `SectionId.SlugPointwise`, `SectionId.SlugAlphabet` and `SectionId.SlugIdempotent` characterise it |
| SectionId.SlugAlphabet | app/components/DocumentViewer.tsx:63-66 | a slug uses only `[a-z0-9-]` and so never contains `/` |
| SectionId.SlugPointwise | app/components/DocumentViewer.tsx:63-66 | the slug has one character per character of the `-`-joined heading, lower-cased or replaced |
| SectionId.SlugFixpoint | app/components/DocumentViewer.tsx:63-66 | slugifying a one-fragment heading changes nothing exactly when it is already in `[a-z0-9-]` |
| SectionId.SlugIdempotent | app/components/DocumentViewer.tsx:63-66 | re-slugging a slug leaves it unchanged |
| Resolver.FindIsFirstMatch | app/components/DocumentViewer.tsx:61-69 | `find` returns the first sibling whose slug equals the id, and nothing exactly when none does |
| Resolver.Find | app/components/DocumentViewer.tsx:61-69 | a found section has the id as its slug; `Resolver.FindIsFirstMatch` shows it is the first such sibling |
| Resolver.Walk | app/components/DocumentViewer.tsx:59-97 | the walk matches at most one section per id |
| Resolver.WalkMatchesIds | app/components/DocumentViewer.tsx:59-77 | the i-th matched section has the i-th id as its slug |
| Resolver.WalkIsGreedy | app/components/DocumentViewer.tsx:59-97 | each matched section is the first match among the children of the previous one, and the walk ends at the first id that matches nothing |
| Resolver.GreedyWalkIsUnique | app/components/DocumentViewer.tsx:59-97 | that greedy description determines the walk: any greedy walk is `Walk` |
| Resolver.WalkExtend | app/components/DocumentViewer.tsx:71-92 | after a fully matched prefix, one more id extends the match by the first sibling with that slug, or stops |
| Resolver.WalkStopped | app/components/DocumentViewer.tsx:93-96 | once an id fails, no later id changes the result |
| Resolver.WalkConsumedPrefix | app/components/DocumentViewer.tsx:59-97 | the walk is the walk of the ids it matched |
| Resolver.CrumbsAppend | app/components/DocumentViewer.tsx:73-77 | a newly matched section appends one entry with its id and label |
| Resolver.Ids | app/components/DocumentViewer.tsx:153 | `map((item) => item.id)` keeps length and order |
| Resolver.ResolvePath | app/components/DocumentViewer.tsx:44-106 | the effect's loop, with its early `break`, computes exactly `Resolve`: the head pair, one entry per matched id, and the children of the last match |
| Resolver.Resolve | app/components/DocumentViewer.tsx:44-106 | every resolution starts its trail with the Home and document entries; `Resolver.ResolvedTrailFollowsWalk`, `Resolver.ResolveFailSoft` and `Resolver.ResolveIgnoresAfterMiss` characterise the rest |
| Resolver.ResolvedTrailHead | app/components/DocumentViewer.tsx:44-47 | every resolved trail starts with Home and the joined title, and its later entries carry no section; with no or an empty `section` it is just those two, over the top-level sections |
| Resolver.ResolvedTrailFollowsWalk | app/components/DocumentViewer.tsx:53-101 | below the head pair, the trail lists the matched ids with their headings' labels, and the current sections are where the walk ended |
| Resolver.ResolveFailSoft | app/components/DocumentViewer.tsx:93-96 | appending an id that matches nothing to a fully matched path resolves exactly as the path without it |
| Resolver.ResolveIgnoresAfterMiss | app/components/DocumentViewer.tsx:93-96 | after the first unmatched id, whatever follows is ignored |
| Viewer.DocumentViewer.constructor | app/components/DocumentViewer.tsx:22-30 | no document, loading, empty trail and sections, nothing pushed or opened |
| Viewer.DocumentViewer.BeginFetch | app/components/DocumentViewer.tsx:35 | the fetch sets `loading` and changes nothing else |
| Viewer.DocumentViewer.FinishFetch | app/components/DocumentViewer.tsx:36-107 | a failed fetch changes nothing (loading stays true); a fetched document clears `loading` and sets trail and sections to its resolution of the current `section` |
| Viewer.DocumentViewer.NavigateToSection | app/components/DocumentViewer.tsx:114-158 | a linked section is only opened; any other gets one trail entry, its child sections shown, the ids below the head written to `section`, other parameters kept, and one push |
| Viewer.DocumentViewer.Rendered | app/components/DocumentViewer.tsx:161-170 | the loading screen shows exactly while loading, and under the invariant "Document not found" is never shown |
| Viewer.SectionPath | app/components/DocumentViewer.tsx:151-154 | a trail of at most the two head entries writes the empty path, and a deeper one writes a path that starts with the first id below the head |
| Viewer.SectionPathDecodes | app/components/DocumentViewer.tsx:151-154 | when no id contains `/`, splitting the written path gives back the ids below the head |
| Viewer.SectionPathAppend | app/components/DocumentViewer.tsx:151-154 | appending an entry appends its id to the written path, which is then non-empty if the id is |
| Viewer.IdsOfCrumbs | app/components/DocumentViewer.tsx:73-77 | the ids of the resolved entries are the ids they matched |
| Viewer.ResolveDescend | app/components/DocumentViewer.tsx:114-157 | the path written after descending from a fully matched prefix resolves to the prefix's trail plus the new entry, and to the new section's children |
| Viewer.NavigateRoundTrip | app/components/DocumentViewer.tsx:114-157 | from any resolved state, when the clicked section is the first sibling with its slug and the written path is non-empty, the path a click writes resolves back to the trail just built (entries without sections) and to the clicked section's children |
| Viewer.ReloadPicksFirstSameSlug | app/components/DocumentViewer.tsx:61-69 | a top-level path resolves to the children of the first sibling with that slug, whichever sibling wrote it |
| Viewer.NavigateThenReload | app/components/DocumentViewer.tsx:111-157 | after a click and the effect re-run that the push triggers, the trail ids gained the clicked slug and the clicked section's children are shown |
| Card.Step | app/components/SectionCard.tsx:172-178 | every click, on the body (`:58`) or the button, flips `isExpanded` and never sets `showSubsections`; `Card.StepFlipsExpanded` states each event |
| Card.Run | app/components/SectionCard.tsx:172-178 | after a sequence of clicks `isExpanded` has flipped once per click, so it is flipped exactly when the count is odd |
| Card.StepFlipsExpanded | app/components/SectionCard.tsx:172-178 | every click flips `isExpanded`; the button resets `showSubsections` only when it expands |
| Card.BodyClickTwice | app/components/SectionCard.tsx:58 | two clicks on the card body restore the state |
| Card.SubsectionsStayHidden | app/components/SectionCard.tsx:172-178 | no sequence of clicks sets `showSubsections` |
| Card.SubsectionsNeverShown | app/components/SectionCard.tsx:24-25 | from the first render, `showSubsections` stays false |
| Card.SectionCard.constructor | app/components/SectionCard.tsx:24-25 | both flags start false |
| Card.SectionCard.ClickBody | app/components/SectionCard.tsx:58 | the body click is one `BodyClick` step and keeps the invariant |
| Card.SectionCard.ClickToggle | app/components/SectionCard.tsx:172-178 | the button click is one `ToggleClick` step and keeps the invariant |
| Card.SectionCard.ClickHeading | app/components/SectionCard.tsx:93-101 | the heading opens the link exactly when the section has a non-empty url, and otherwise navigates to the section |
| Card.SectionCard.PillsShown | app/components/SectionCard.tsx:142-150 | the subsection pills are never rendered |
| JsonValue.Prop | app/admin/page.tsx:44 | a read on `null` throws the engine's message, a read on an object yields the member if present, and every other read is `undefined` |
| JsonValue.NatDigits | app/admin/page.tsx:97 | decimal digits, at least one, with no leading zero |
| JsonValue.NatDigitsRoundTrip | app/admin/page.tsx:97 | reading back the digits of `n` gives `n` |
| JsonValue.JsString | app/admin/page.tsx:97 | `String(v)` is the string itself for strings, denotes the number for non-negative numbers, and is empty for an empty array |
| Admin.Validate | app/admin/page.tsx:40-56 | the validator accepts exactly the parsed values that are objects with a non-empty `title` array and `summary`, `longSummary`, `children` arrays; a parse error or `null` reports the thrown message |
| Admin.ValidatePrecedence | app/admin/page.tsx:44-55 | for any non-null value the first failing check decides the message, in the order title, summary, longSummary, children; a value that is not an object fails on the title |
| Admin.EmptyArraysAccepted | app/admin/page.tsx:44-55 | empty summary, longSummary and children pass; an empty title does not |
| Admin.ValidationStatus | app/admin/page.tsx:57-64 | success status exactly for a valid document; a failure reads `JSON validation failed: ` plus the message |
| Admin.ConnectionFailure | app/admin/page.tsx:18-33 | a thrown fetch or unparseable reply reads `Failed to check connection: ` plus its message; a `null` reply reads that prefix plus the `TypeError` of reading `success` (ok) or `message`; otherwise the reply's truthy `message`, or `Supabase connection not available` |
| Admin.UploadBody | app/admin/page.tsx:88-91 | the body holds exactly `title` and `document` |
| Admin.UploadStatus | app/admin/page.tsx:94-106 | success exactly for an ok response with a JSON body; every failure reads `Failed to upload document: ` plus the thrown or unparsed message, or for a response that is not ok `String(result.message)`, the default `Failed to upload document`, or the `TypeError` of reading from `null` |
| Admin.UploadFailureReason | app/admin/page.tsx:96-98 | the error thrown for a response that is not ok carries `String(result.message)` when it is truthy, else `Failed to upload document`, and reading from a `null` result throws the `TypeError` instead |
| Admin.AdminPage.constructor | app/admin/page.tsx:6-9 | empty title and text, blank status, `checking`, nothing sent |
| Admin.AdminPage.SetTitle | app/admin/page.tsx:153 | the title input sets the title only |
| Admin.AdminPage.SetDocumentJson | app/admin/page.tsx:163 | the text area sets the text only |
| Admin.AdminPage.CheckConnection | app/admin/page.tsx:13-34 | connected exactly when the response is ok and `success` is truthy, and otherwise an error with the failure message |
| Admin.AdminPage.ValidateJson | app/admin/page.tsx:40-66 | returns true exactly for a well-formed document and sets the matching status |
| Admin.AdminPage.UploadDocument | app/admin/page.tsx:69-108 | the guards run in order (connection, trimmed title, validity) and send nothing when they fail; otherwise it sends the trimmed title and parsed document, and every body sent passed the guards |
| UploadRoute.Post | app/api/admin/upload-document/route.ts:4-79 | missing env gives 500 before anything else; success exactly for env set, an accepted body and a working database; the title's row is set only on success, and the table is otherwise unchanged; a database error gives 500 `Upload failed: ` plus its message; an unparseable or `null` body and a thrown database call give 500 `Server error: ` plus the thrown message |
| UploadRoute.TitleCheckedBeforeStructure | app/api/admin/upload-document/route.ts:21-36 | for any non-null body, including primitives and arrays, a falsy or missing title gives 400 `Missing document title` whatever the document |
| UploadRoute.StructureCheckedBeforeDatabase | app/api/admin/upload-document/route.ts:31-54 | with a title, a document with any falsy field gives 400 `Invalid document structure` and does not touch the database |
| UploadRoute.UpsertTouchesOneRow | app/api/admin/upload-document/route.ts:47-54 | rows under other titles are kept unchanged, and at most one row is added |
| UploadRoute.UpsertReplaces | app/api/admin/upload-document/route.ts:47-54 | a second upload under the same title replaces the first document |
| UploadHandoff.CheckedUploadAccepted | app/api/admin/upload-document/route.ts:24-68 | a body that passed the page's guards is accepted and stored under its title |
| UploadHandoff.ResponseJson | app/api/admin/upload-document/route.ts:59-68 | the response body's `success` and `message` read back as the response's fields |
| UploadHandoff.RouteOutcomeReachesAdmin | app/admin/page.tsx:94-106 | whatever the route answers, the page shows success exactly when the route stored the document, and otherwise `Failed to upload document: ` plus the route's own message |
| UploadHandoff.SentBodiesAccepted | app/admin/page.tsx:85-92 | every body the page has sent would be stored by the route |

## Left out

- Rendering is not modelled: JSX, animations, the document header shown at depth two, and the `compactMode` display toggle, which is a presentation flag with no effect on navigation.
- `processTextArray` (markdown removal) is a parameter of the viewer (`processText`) and is not modelled.
- `fetchDocumentByTitle` and Supabase are not modelled. The fetched document is the argument of `FinishFetch`, and the database's answer is an argument of `UploadRoute.Post`.
- Asynchrony is not modelled. Each fetch and each handler runs to completion in one step, so interleaved effect runs and stale responses are out of scope.
- The query string is a map from names to values. Percent-encoding and the text of `URLSearchParams.toString()` are not modelled.
- `toLowerCase` maps ASCII letters only. Strings are sequences of Unicode scalar values, not UTF-16 code units, so the number of `-` an astral character becomes is not modelled.
- JSON numbers are integers. Fractions, exponents and `-0` are not modelled.
- `JSON.parse`, `response.json()` and `JSON.stringify` are not modelled. Parsing is a function parameter (`AdminPage.parse`) or an argument (`ParseOutcome`), and the request body reaches the route as the value the page built.
- The messages of engine errors (`JsonValue.NullReadMessage`, `UploadRoute.DestructureNullMessage`) follow one engine's wording.
- `JsonValue.JsString`: its contract covers strings, non-negative numbers and empty arrays only; the other cases are defined but not characterised.
- The status message is stored as a JSON value, and how React displays a non-string message is not modelled.
- `app/api/admin/check-connection/route.ts` is not part of this model. Its reply is the argument of `AdminPage.CheckConnection`.
- Breadcrumb, CategoryTabs, SectionPills, FullContentView, ExpandableTableOfContents and DocumentSummary are not part of this model.
- `navigateToChildSection` of the card is not modelled. It is reachable only through the subsection pills, which are never rendered (`Card.SectionCard.PillsShown`).
- The `parentSection` field of a section is not modelled, because the core never reads it.
- `console.error` logging is not modelled.
- The upsert's key is the JSON value of `title`, and how the database coerces a non-string title into its text column is not modelled.
