# ABS front end: crop geometry, forms and list updates

This project models the deterministic core of the ABS student-organisation front end, a React single-page app.

- **Crop dialog** (`ImageCropModal`). It fits the chosen image into its container, then starts a centred crop of fixed aspect ratio. Each crop the user proposes is clamped back to the image. The completed crop is mapped to a canvas in natural pixels, and the dialog resets when it closes. The arithmetic is stated over exact reals, with `Math.floor` as real floor. This is the `CropGeometry` module, and the dialog's state is the `ImageCropModal.CropModal` class.
- **Forms.** The events page's own inline dialog and the separate `EventModal` component use the same five-field event form (`EventForms`). Each form has its required-field check and its "set one field, clear that field's error" update (`FormState.ClearError`). The event dialog and the member dialog fill the form from the record being edited; the member dialog falls back to the legacy `age` field. The member dialog submits the year under `age` and without a `year` key. The sign-in page (`Login`) interprets the server's reply, stores the token, and sets the user.
- **Lists.** The events page (`Events`) and the e-board page (`Eboard`) update their lists after a request succeeds. An edit replaces the records with the edited id, a create puts the new record first, and a delete filters the id out (`Lists`).

Each component whose handlers change React state is a class. Its fields are the state cells, and each handler is a method whose postcondition gives the whole new state. Network calls and the callbacks a component awaits are passed in as abstract outcomes: `Reply.Ok(response)` or `Reply.Err(Failure(status, serverError, message))`. Where the page's loading flag is visible while a request is pending (the sign-in page, the member save), the handler is split at its `await` into a `Begin…` and a `Finish…` method. The state in between is exactly what the page shows during the request. Alerts the pages raise, and the callbacks the dialogs invoke, are recorded in order in a sequence field.

Modules: `Base` (options, replies, the user, `IsAdmin`), `Text` (ECMAScript `trim`, `split(..)[0]`, `slice`), `FormState`, `Lists`, `CropGeometry`, `ImageCropModal`, `EventForms`, `Events`, `EventModal`, `MemberModal`, `Eboard`, `Login`.

### Where the crop geometry does not do what one might expect

- A 1200×800 image shown at 600×400 with ratio 1.78 is narrower than the ratio (1.5 < 1.78). So the code takes 80% of the *width*, not the height. The result is a 480 × 269.66 crop at (60, 65.17) and, at pixel ratio 1, a 960 × 539 canvas (`CropGeometry.LandscapeExample`).
- The code does not keep every crop inside the image:
  - The 50px minimum can make the initial crop larger than a small image (`CropGeometry.SmallImageCropOverhangs`).
  - In `handleCropChange`, an overwide proposal is cut to the image width, and the ratio then recomputes the height. That height can exceed the image (`CropGeometry.WidthClampCanLeaveImage`).

  The model states what the code does guarantee. The corner is pulled back from the far edge and is never negative. A proposal that fits keeps its size and stays inside. A proposal that had the target ratio keeps it.

## Model

| member | source | states |
|---|---|---|
| Eboard.AdminIsExact | src/components/Eboard.jsx:20 | for every optional user, `IsAdmin` holds exactly when the user is the one named "Admin"; in particular "admin" and a missing user have no rights |
| Text.Trim | src/components/Events.jsx:73-75 | the trimmed text is a slice of the input with only ECMAScript white space cut from both ends and none left at either end; it is empty exactly when the input is all white space |
| Text.BlankIsEmptyTrim | src/components/MemberModal.jsx:94-108 | `!s.trim()` (the trimmed text is empty) holds exactly when the text is blank, the test the required-field checks use |
| Text.Before | src/components/Events.jsx:126 | `split('T')[0]` is a prefix holding no 'T', followed in the input by a 'T' whenever it is shorter |
| Text.Prefix | src/components/EventModal.jsx:53 | `slice(0, 16)` is a prefix of at most 16 characters, exactly 16 when the input has that many, and the whole input when it is no longer |
| Lists.Replaced | src/components/Events.jsx:101-103 | the list keeps its length and order; every record with the id becomes the response and every other record stays in its place |
| Lists.ReplacedAbsent | src/components/Eboard.jsx:80-84 | replacing an id no record carries leaves the list unchanged |
| Lists.Removed | src/components/Events.jsx:140 | no record with the id is left, every record without it is kept, and nothing is added |
| Lists.RemovedAppend | src/components/Events.jsx:140 | deleting from a concatenation deletes from each part, so the survivors keep their order |
| Lists.RemovedAbsent | src/components/Eboard.jsx:135 | deleting an id no record carries leaves the list unchanged |
| Lists.RemovedIdempotent | src/components/Eboard.jsx:135 | deleting the same id twice gives what deleting it once gives |
| Lists.RemovedReplaced | src/components/Events.jsx:101-103 | an edit whose response keeps the id changes nothing among the other records |
| FormState.ClearError | src/components/Events.jsx:63-68 | the edited field's error stops showing; no key is added or dropped, and every other error is unchanged |
| CropGeometry.FitImage | src/components/ImageCropModal.jsx:100-116 | the scale is the least of the two room-to-size ratios and 1, so it never enlarges; the shown size is the natural size times the scale, keeps the natural ratio, fits the container less its 40px padding, is positive when the container exceeds the padding, and equals the natural size when that fits |
| CropGeometry.InitialCrop | src/components/ImageCropModal.jsx:144-166 | the crop has exactly the target ratio (also when the 50px minimum clamps both sides) and is at least 50px wide. Its corner is where the 80% span, before the minimum, would be centred, raised to 0 if negative. It takes 80% of the height of an image wider than the ratio, and 80% of the width otherwise. When the minimum does not apply, it is centred and inside the image |
| CropGeometry.SmallImageCropOverhangs | src/components/ImageCropModal.jsx:157-165 | a 20×20 image gets a 50×50 initial crop at (2, 2), which is not inside the image |
| CropGeometry.LandscapeExample | src/components/ImageCropModal.jsx:100-166 | a 1200×800 image in a 640×440 container is shown at 600×400 (scale 0.5); the initial crop at ratio 1.78 is 480 × 24000/89 at (60, 5800/89) |
| CropGeometry.BoundCrop | src/components/ImageCropModal.jsx:177-199 | after a crop change the corner is the proposal's, pulled back by as much as the proposal overhangs the far edge and raised to 0 if negative, so it is never negative. A proposal that fits keeps its size and ends inside, and one already inside is kept unchanged. An overwide proposal becomes image-wide, its height following the ratio. Otherwise an overtall one becomes image-tall, its width following. A ratio of 0 only cuts the sides. A proposal of the target ratio keeps it |
| CropGeometry.WidthClampCanLeaveImage | src/components/ImageCropModal.jsx:187-199 | a 200×50 proposal on a 100×40 image at ratio 1 becomes 100 tall, so it leaves the image |
| CropGeometry.CanvasExtent | src/components/ImageCropModal.jsx:223-224 | a canvas side is the crop side in natural pixels times the pixel ratio, rounded down: at most one pixel short of it |
| CropGeometry.CanvasWidthAtScaleFour | src/components/ImageCropModal.jsx:218-223 | with a natural-to-shown scale of 4, a 100px crop side gives floor(400 × pixel ratio) |
| CropGeometry.Render | src/components/ImageCropModal.jsx:204-264 | nothing is produced without a crop, an image, non-zero width and height, a drawing context and an encoded blob. Otherwise the file keeps the original name and type, at quality 0.95. The canvas is the crop at natural resolution times the pixel ratio (1 when absent or 0), and the region drawn is the crop scaled per axis |
| ImageCropModal.CropModal.constructor | src/components/ImageCropModal.jsx:12-16 | the ratio defaults to 16/9; there is no source, crop or completed crop, and the image is not loaded |
| ImageCropModal.CropModal.SourceRead | src/components/ImageCropModal.jsx:91-94 | the data URL becomes the source and the image is marked not loaded; nothing else changes |
| ImageCropModal.CropModal.OnImageLoad | src/components/ImageCropModal.jsx:118-171 | the element is remembered. With a container, the image is fitted into it, and the initial crop for the fitted size becomes both the edited and the completed crop, and the image is marked loaded. Without a container nothing else changes |
| ImageCropModal.CropModal.HandleCropChange | src/components/ImageCropModal.jsx:174-202 | before the element exists, nothing changes. Otherwise the edited crop is the proposal bounded (as BoundCrop states) by the element's shown size; the completed crop is untouched |
| ImageCropModal.CropModal.OnWidgetComplete | src/components/ImageCropModal.jsx:337-341 | only a crop of non-zero width and height becomes the completed crop |
| ImageCropModal.CropModal.HandleClose | src/components/ImageCropModal.jsx:286-292 | source, crop, completed crop and loaded flag are cleared, then the parent's `onClose` is invoked; the element unmounts, so its reference is cleared |
| ImageCropModal.CropModal.HandleCropComplete | src/components/ImageCropModal.jsx:266-284 | without an element or a completed crop nothing changes. Otherwise the completed crop is rendered as Render states, and `onCropComplete` receives the file only when one was produced. The dialog closes in every case |
| EventForms.EventForm.With | src/components/Events.jsx:59-62 | exactly the named field takes the new value; the others keep theirs |
| EventForms.FormErrors | src/components/Events.jsx:71-78 | there is an error for each of title, description and location that is blank after trimming, with its message, and none for date or image; the form is valid exactly when all three are non-blank |
| EventForms.CollectErrors | src/components/EventModal.jsx:83-91 | the error map filled one check at a time is exactly FormErrors of the form |
| Events.EditPrefill | src/components/Events.jsx:120-128 | the editing form copies the record's texts; its date is the text before the first 'T', or '' when there is no date |
| Events.EventsPage.constructor | src/components/Events.jsx:8-19 | no events, dialog hidden, nothing being edited, five empty fields, no errors |
| Events.EventsPage.HandleInputChange | src/components/Events.jsx:57-69 | exactly the named field changes, and only that field's error is cleared; list and dialog are untouched |
| Events.EventsPage.ValidateForm | src/components/Events.jsx:71-79 | the errors become those of the form, and it is valid exactly when title, description and location are non-blank |
| Events.EventsPage.HandleSubmit | src/components/Events.jsx:81-118 | an invalid form sends nothing and changes only the errors. A valid one sends a PUT to the edited id or a POST. On success, an edit replaces by id and a create prepends, and the dialog closes and resets. On failure the errors are only the general message and the dialog stays open |
| Events.EventsPage.HandleEdit | src/components/Events.jsx:120-130 | the event becomes the edited one, the form is EditPrefill of it, and the dialog opens |
| Events.EventsPage.HandleDelete | src/components/Events.jsx:132-144 | a request is sent exactly when confirmed; only a successful one removes the events with the id |
| Events.EventsPage.OpenModal | src/components/Events.jsx:146-157 | nothing is being edited, the form is five empty strings, there are no errors, and the dialog is shown |
| Events.EventsPage.CloseModal | src/components/Events.jsx:159-170 | the dialog is hidden, nothing is being edited, the form is empty and there are no errors; the list is untouched |
| EventModal.Prefill | src/components/EventModal.jsx:47-64 | with an event, its texts are copied and the date is the first 16 characters of its ISO text, or all of it when shorter ('' without a date); without one, all five fields are '' |
| EventModal.PrefillOfCompleteEventIsValid | src/components/EventModal.jsx:48-55 | re-opening an event whose title, description and location are not blank fills a form that passes validation |
| EventModal.SubmitError | src/components/EventModal.jsx:101 | the general message is the thrown error's message, or the default text when that is empty |
| EventModal.EventModalForm.constructor | src/components/EventModal.jsx:23-30 | five empty fields and no errors |
| EventModal.EventModalForm.OnEditingChange | src/components/EventModal.jsx:47-66 | the form becomes Prefill of the edited event and every error is cleared |
| EventModal.EventModalForm.HandleInputChange | src/components/EventModal.jsx:68-81 | exactly the named field changes, and only that field's error is cleared |
| EventModal.EventModalForm.ValidateForm | src/components/EventModal.jsx:83-91 | the errors become those of the form, and it is valid exactly when title, description and location are non-blank |
| EventModal.EventModalForm.HandleSubmit | src/components/EventModal.jsx:93-103 | `onSubmit` is invoked with the form exactly when it is valid; if it throws, the errors are exactly the general SubmitError message |
| EventModal.EventModalForm.HandleClose | src/components/EventModal.jsx:105-115 | the form is emptied and the errors cleared, then the parent's `onClose` is invoked |
| MemberModal.MemberForm.With | src/components/MemberModal.jsx:78-81 | exactly the named field takes the new value; the others keep theirs |
| MemberModal.YearOf | src/components/MemberModal.jsx:57 | the year comes from `year` when truthy, else from the legacy `age` when truthy, else '' |
| MemberModal.Prefill | src/components/MemberModal.jsx:53-72 | with a member, its texts are copied and the year is YearOf it; without one, all six fields are '' |
| MemberModal.FormErrors | src/components/MemberModal.jsx:91-111 | there is an error for each of name, year, major, role and description that is blank after trimming, with its message, and none for the picture; the form is valid exactly when all five are non-blank |
| MemberModal.CollectErrors | src/components/MemberModal.jsx:92-109 | the error map filled one check at a time is exactly FormErrors of the form |
| MemberModal.Submission | src/components/MemberModal.jsx:123-127 | the submission carries the form's year as its age, and every other field unchanged |
| MemberModal.FormObject | src/components/MemberModal.jsx:123-124 | the form object has exactly the six input keys, each holding its field's value |
| MemberModal.SubmissionObject | src/components/MemberModal.jsx:123-127 | the submitted object has exactly the keys name, age, major, role, description and picture, and no `year` |
| MemberModal.BuildSubmitData | src/components/MemberModal.jsx:123-127 | spreading the form, adding `age` and deleting `year` yields exactly the submission's object |
| MemberModal.PrefillAfterSubmit | src/components/MemberModal.jsx:57-127 | editing a member stored from a submission, which carries only `age`, fills the exact form it was submitted from |
| MemberModal.MemberModalForm.constructor | src/components/MemberModal.jsx:19-27 | six empty fields, no errors, nothing submitted |
| MemberModal.MemberModalForm.OnEditingChange | src/components/MemberModal.jsx:53-74 | the form becomes Prefill of the edited member and every error is cleared |
| MemberModal.MemberModalForm.HandleChange | src/components/MemberModal.jsx:76-89 | exactly the named field changes, and only that field's error is cleared |
| MemberModal.MemberModalForm.ValidateForm | src/components/MemberModal.jsx:91-112 | the errors become those of the form, and it is valid exactly when they are empty |
| MemberModal.MemberModalForm.HandleSubmit | src/components/MemberModal.jsx:114-133 | an invalid form never reaches `onSubmit`; a valid one hands it the submission object |
| Eboard.TokenCookie | src/components/Eboard.jsx:23-28 | the cookie written is `token=`, then the stored token, then exactly the attributes `; path=/; max-age=86400; SameSite=Strict` (one day) |
| Eboard.SaveErrorAlert | src/components/Eboard.jsx:108 | the alert is the server's `error` when truthy, else the error's message when non-empty, else "Failed to save member" |
| Eboard.EboardPage.constructor | src/components/Eboard.jsx:13-18 | no members, dialog hidden, nothing being edited, not loading; the token is whatever the browser had stored |
| Eboard.EboardPage.BeginModalSubmit | src/components/Eboard.jsx:45-92 | the loading flag is up exactly while a request is out. Without a token there is a "No authentication token" alert and no request, and the members are untouched. With one, an edit sends a PUT to the edited id and a create a POST |
| Eboard.EboardPage.FinishModalSubmit | src/components/Eboard.jsx:80-112 | on success, an edit replaces by id and a create prepends, and the dialog closes with nothing edited. A 401 gives the sign-in alert, and any other failure gives SaveErrorAlert. After a failure, list, dialog and edited member are unchanged. Loading ends on every path |
| Eboard.SavedEditReplacesOnlyThatId | src/components/Eboard.jsx:80-84 | a saved edit keeps the length, changes no member with another id, and leaves only the response under the edited id |
| Eboard.EboardPage.HandleEdit | src/components/Eboard.jsx:115-118 | the member becomes the edited one and the dialog opens |
| Eboard.EboardPage.HandleDelete | src/components/Eboard.jsx:120-140 | a request is sent exactly when a token is stored, after mirroring it into the cookie. Only success removes the members with the id. Every failure, including a missing token, gives the same alert and leaves the list as it was |
| Eboard.EboardPage.SetTokenCookie | src/components/Eboard.jsx:23-28 | a stored token is mirrored into the cookie; without one the cookie is untouched |
| Eboard.EboardPage.OpenCreateModal | src/components/Eboard.jsx:142-145 | nothing is being edited and the dialog is shown |
| Eboard.EboardPage.CloseModal | src/components/Eboard.jsx:147-150 | the dialog is hidden and nothing is being edited; the list is untouched |
| Login.LoginForm.With | src/components/Login.jsx:18-21 | exactly the named field takes the new value; the other keeps its own |
| Login.FormErrors | src/components/Login.jsx:30-42 | the user name is required after trimming and the password only to be non-empty. The form is valid exactly when both hold |
| Login.CollectErrors | src/components/Login.jsx:31-40 | the error map filled one check at a time is exactly FormErrors of the form |
| Login.SpacesOnlyInPassword | src/components/Login.jsx:33-39 | a password of spaces passes while a user name of spaces does not |
| Login.FailureText | src/components/Login.jsx:84-88 | the general error is the server's `error` when truthy, else the default text |
| Login.LoginPage.constructor | src/components/Login.jsx:8-13 | two empty fields, no errors, not loading |
| Login.LoginPage.HandleChange | src/components/Login.jsx:16-28 | exactly the named field changes, and only that field's error is cleared |
| Login.LoginPage.ValidateForm | src/components/Login.jsx:30-43 | the errors become those of the form, and it is valid exactly when they are empty |
| Login.LoginPage.BeginSubmit | src/components/Login.jsx:45-59 | an invalid form sends nothing and leaves the loading flag as it was. A valid one raises the flag, clears the errors and sends the credentials |
| Login.LoginPage.FinishSubmit | src/components/Login.jsx:61-91 | the token is stored exactly when the reply carries one. The user is set and "/" navigated to only when both token and user are present. A missing token, or a token without a user, gives the default general error. A failed request gives FailureText. Loading ends on every path |

## Left out

- Scroll locking, the `--vh` viewport variable and the saved body styles of the crop dialog, and the body class of the other dialogs: browser environment plumbing.
- `FileReader` decoding, canvas drawing calls, `toBlob` encoding and the crop widget's own dragging, resizing and `minWidth`: foreign browser and library APIs. Whether a drawing context exists and whether encoding succeeded are parameters of `CropGeometry.Render`; the current time is a parameter.
- IEEE-754 rounding, NaN and Infinity: the crop arithmetic is over exact reals.
- CropGeometry.FitImage, CropGeometry.InitialCrop: the natural size must be positive. For InitialCrop the shown size must be positive too.
- ImageCropModal.CropModal.OnImageLoad: the model requires a container larger than the 40px padding, so that the shown size is positive. Containers of 40px or less are not modelled. In the code, a container of exactly 40px gives a scale of 0 and a 0×0 image. The ratio comparison is then on NaN, the else branch runs, and the result is a 50 × 50/ratio crop at (0, 0). A smaller container gives a negative shown size, written as a negative CSS size. `Math.max` still yields a crop 50 wide, at least 50/ratio tall, with its corner at or above 0. Either way the code gives a minimum-size crop on an image of zero or negative size.
- ImageCropModal.CropModal.constructor: the model requires a positive aspect ratio when one is given. The code also accepts 0 or a negative ratio. With 0, the initial crop is 0 wide before the minimum, and its minimum height 50/ratio is infinite. `handleCropChange` also skips its ratio step, because 0 is falsy. Only a direct use of `CropGeometry.BoundCrop` reaches that ratio-0 case, because the dialog class never holds a ratio of 0.
- ImageCropModal.CropModal.HandleCropChange: the element reference is recorded by the load handler, and the element's bounding box is taken to be the size `onImageLoad` gave it. In the code, `ref={imgRef}` already holds the element from when it mounts (once a source is set) until its load event. During that window the code bounds a crop change by the element's unloaded box, while the model ignores the change. Later layout changes by the browser are not modelled either.
- HTTP requests: their replies are parameters. The `Authorization` headers, URLs and `withCredentials` options are not modelled.
- `localStorage`: modelled only as the token slot the pages read and the sign-in page writes.
- `alert` is modelled as an ordered log. The answer to `window.confirm` is a parameter of `Events.EventsPage.HandleDelete`.
- `fetchEvents`, `fetchMembers`, their page-level loading flags, and the mock events used when fetching fails: initial data loading only.
- `new Date(d).toISOString()` in the event dialog is an abstract function parameter (`isoString`); locale formatting elsewhere is not part of this model.
- Fields missing from server records are modelled as "" for plain texts. For the events page's `handleEdit`, which copies title, description and location without a default, this means a missing field is "" rather than `undefined`. The model therefore does not capture the crash `undefined.trim()` would then cause in validation.
- A member's `year` and `age` are kept as optional texts, since their absence matters for the legacy fallback. Non-string values in them are not modelled.
- MemberModal.Submission: the typed record has no `year` field. The deletion of the key is carried by `MemberModal.SubmissionObject` and `MemberModal.BuildSubmitData`.
- Errors thrown by `onSubmit` in the member dialog are only logged, so their outcome is not an input of `MemberModal.MemberModalForm.HandleSubmit`.
- Concurrent or interleaved handlers: each handler, or each half of a handler split at its `await`, is one sequential step. React's batching of state updates is not modelled.
- `isAdmin` in the e-board and events pages only decides which controls are rendered, and the handlers do not check it. So the pages' classes do not hold the user, and the check is stated as `Base.IsAdmin` with `Eboard.AdminIsExact`.
- The application shell (routing, the socket connection, session checks and logout), the full event page, the navigation bar, the user page and the card components are presentation or I/O only, and are not part of this model.
