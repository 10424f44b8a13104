# imago-web-interface in Dafny

A model of the decision logic of imago-web-interface. The project is a mammography study portal with two parts:

- a Next.js front end, where physicians register, sign in and upload four-view DICOM studies;
- an Express back end with Firebase session cookies and custom claims, plus a small Flask service that reads DICOM metadata.

The model covers the parts of the code that decide something. Each has a Dafny module of its own:

- **Upload validation.**
  - `DicomFileGate`: the back-end gate over the required views, with the "DICM" signature at bytes 128..131 and the hash check.
  - `DicomUploadFilter`: the multer MIME and size filter, the file-name sanitiser (rewritten in place on a `MulterFile` object), and the missing-view list.
  - `FileUploadField`: the front-end size, length and marker checks.
  - `DicomPreamble` and `Utf8`: the DICOM PS3.10 section 7.1 signature, and the WHATWG UTF-8 decoder behind `TextDecoder`.
- **Dashboard state.** `DashboardForm` is a class holding the file map, its key order, the study name and the loading flag. Its methods are the handlers, and it builds the submitted FormData.
- **Custom claims.** `ClaimsService.AuthStore` is a class holding the users, their claims and the token revocations. Its methods overwrite or merge claims.
- **Authorisation gates.** `Session` holds what the gates share. The gates are `CheckApproved`, `CheckAdmin`, `VerifyAdmin` (including the `/verify_admin` route chain), `ValidateOrigin` and the Next.js `RouteMiddleware`.
- **Errors.** `ErrorHandler` models `AppError` and the global handler. `ErrorHandling` models the front end's `handleApiError`.
- **Request shaping.**
  - `Pagination`: page, limit and offset.
  - `Security`: `verifyDataIntegrity` and `validateMedicalUserData`.
  - `SignupPage`: the password regular expression, the registration checks, the claims poll and the route choice.
  - `SignUpForm`: the admin-side form.
  - `ContactSchema`: the contact form rules.
  - `StudiesList`: `formatDate`.
  - `DicomService`: the Flask metadata extraction.
  - `PreventMultipleResponses`: the once-only `send` wrapper, as a class with the closure flags, the bodies written and the outcome of each send (written, swallowed, or thrown by Express's own `send`).

`Wrappers` and `Js` model JavaScript values: truthiness, `||`, `??`, property access, `trim` with the exact ECMAScript white-space set, and `substring` clamping.

Calls into code outside the model become parameters:

- Firebase's `verifySessionCookie` is a `string -> Option<Token>`.
- SHA-256 is a function from bytes to a digest.
- `dicomParser.parseDicom` and `pydicom.dcmread` enter as their results.
- `parseInt` enters as an `Option<int>`, with `None` for NaN.
- zod's e-mail check enters as a boolean.
- The HTTP outcomes of `fetch` enter as values.

The claims are declared as optional booleans (`admin?: boolean; approved?: boolean` in back/src/routes/api.router.ts:27-28) and are only ever written as `true` or `false` (back/src/services/claims.service.ts:9, 23, 40). The gates read them differently, and the model follows each gate's own test:

- `checkApprovedMiddleware` and `verifyAdminController` test their claim by truthiness.
- Only `checkAdminMiddleware` demands `admin === true`.

Further details of the code are kept:

- `checkAdminMiddleware` and `verifyAdminController` read `req.cookies.__session` without `?.`. A missing cookie jar therefore ends in the catch-all 401 of each.
- `validateDICOMFiles` treats a view with an empty file list as missing, because it reads `files[view]?.[0]`. `validateDicomFiles` counts that view as present, because an empty array is truthy.
- `FileUploadField` clears the shown name when a new selection is rejected, but does not call `onFileRemove`. The dashboard therefore keeps the file chosen earlier for that field.
- `preventMultipleResponses` captures whatever `res.send` is when it runs. Running it twice on one response nests a second wrapper around the first, and the first wrapper's flag is never reset.
- Express's own `send` hands an object body to `res.json`, which calls `res.send` again with the serialised text. That second call meets the wrapper whose flag the first call has just set, so `res.send({...})` through the wrapper puts nothing on the wire. `res.json(...)` enters the wrapper only once and goes out.
- Express's own `send` writes the response once. A later call that reaches it throws `ERR_HTTP_HEADERS_SENT`, because the headers have gone out. The wrapper turns such a call into a swallowed one. Without a wrapper, every send after the first throws.
- back/src/server.ts:58-60 mounts `preventMultipleResponses` after `router`, so the route handlers send through the unwrapped `send`. The model proves both cases: a series of sends with and without a wrapper.
- Multer calls `fileFilter` before the file is stored, so `file.size` is still undefined there. `undefined > MAX_FILE_SIZE` is false, so the size branch of the filter never rejects. The real cap is multer's own `limits.fileSize`.

## Model

| member | source | states |
|---|---|---|
| DicomFileGate.IsKnownMaliciousHash | back/src/middlewares/validateDICOMFiles.ts:74-77 | the placeholder never reports a hash as malicious |
| DicomFileGate.MagicMatchesIff | back/src/middlewares/validateDICOMFiles.ts:27-30 | `buffer.slice(128,132).equals(DICM)` holds iff the buffer has at least 132 bytes and bytes 128..131 are 44 49 43 4D; shorter buffers always fail |
| DicomFileGate.Hex | back/src/middlewares/validateDICOMFiles.ts:33 | `toString("hex")` gives two lower-case hex digits per byte |
| DicomFileGate.HexOfSignature | back/src/middlewares/validateDICOMFiles.ts:27-33 | the four signature bytes read as "4449434d" |
| DicomFileGate.CheckViews | back/src/middlewares/validateDICOMFiles.ts:20-49 | the per-view loop only ever answers 400 or 403, and a body carries the `hash` key exactly when it is a 403 |
| DicomFileGate.CheckViewsNextIff | back/src/middlewares/validateDICOMFiles.ts:20-35 | the view loop lets the request through iff every listed view has a first file with the DICM signature |
| DicomFileGate.CheckViewsNamesFirstFailure | back/src/middlewares/validateDICOMFiles.ts:20-35 | when views before k pass and view k fails, the 400 names view k, "Falta archivo para" if it has no file and "no es un DICOM válido" otherwise, the latter with `details` giving the hex of the bytes found at 128..131; later views are not inspected |
| DicomFileGate.ValidateDICOMFiles | back/src/middlewares/validateDICOMFiles.ts:6-71 | no field record (absent or an array) gives 400 "No se subieron archivos"; every response is a 400 or a 403 |
| DicomFileGate.ValidateNextIff | back/src/middlewares/validateDICOMFiles.ts:12-67 | `next()` is reached iff the files come as a field record, not absent and not an array, and view1..view4 each pass |
| DicomFileGate.NeverForbidden | back/src/middlewares/validateDICOMFiles.ts:43-48 | every response of the gate is a 400: both 403 branches are unreachable |
| DicomFileGate.NoForbiddenView | back/src/middlewares/validateDICOMFiles.ts:43-48 | the view loop never answers 403 |
| DicomFileGate.TomoContentsIrrelevant | back/src/middlewares/validateDICOMFiles.ts:52-65 | the verdict does not depend on the tomosynthesis file at all: it is not prefix-checked and its hash check never fires |
| DicomFileGate.TomoIrrelevantToViews | back/src/middlewares/validateDICOMFiles.ts:17-21 | the required-view loop never reads the `tomo` field |
| DicomUploadFilter.FilterVerdict | back/src/middlewares/validateDicomFile.ts:11-25 | with the size as an optional value (undefined while multer filters), a file is accepted iff its MIME type is one of the two allowed and its size is undefined or at most 100 MiB; the MIME check comes first; both rejections are `AppError` 400 |
| DicomUploadFilter.FileFilter | back/src/middlewares/validateDicomFile.ts:16-32 | the callback gets that verdict; on acceptance `originalname` is overwritten in place by its sanitised form, and on rejection it is untouched |
| DicomUploadFilter.SizeBranchUnreachable | back/src/middlewares/validateDicomFile.ts:16-25 | with the size undefined, the verdict depends on the MIME type alone: accepted when allowed, otherwise the MIME rejection; the size rejection never occurs |
| DicomUploadFilter.FilterAsMulterCalls | back/src/middlewares/validateDicomFile.ts:16-32 | the filter on a file as multer hands it over, before storage, accepts exactly the allowed MIME types and then stores the sanitised name |
| DicomUploadFilter.Sanitize | back/src/middlewares/validateDicomFile.ts:28 | each character becomes itself, `_`, or `__` for an astral one, so the output has between one and two characters per input character; its meaning is stated by the Sanitize lemmas in the rows below |
| DicomUploadFilter.SanitizeKeepsLength | back/src/middlewares/validateDicomFile.ts:28 | the sanitised name has the same JavaScript (UTF-16) length as the original |
| DicomUploadFilter.SanitizeOutputChars | back/src/middlewares/validateDicomFile.ts:28 | the sanitised name contains only a-z, A-Z, 0-9, '.', '-' and '_' |
| DicomUploadFilter.SanitizeAt | back/src/middlewares/validateDicomFile.ts:28 | for names without astral characters, each position keeps an allowed character and every other one becomes '_' |
| DicomUploadFilter.SanitizeFixes | back/src/middlewares/validateDicomFile.ts:28 | a name of allowed characters and '_' is left unchanged |
| DicomUploadFilter.SanitizeIdempotent | back/src/middlewares/validateDicomFile.ts:28-29 | sanitising twice equals sanitising once |
| DicomUploadFilter.MissingViews | back/src/middlewares/validateDicomFile.ts:48-50 | no more entries than views, and every entry lacks its field; membership, order and the message are stated by the rows below |
| DicomUploadFilter.MissingViewsMembers | back/src/middlewares/validateDicomFile.ts:48-50 | a view is reported missing iff it is a required view and `files[view]` is absent |
| DicomUploadFilter.MissingViewsInOrder | back/src/middlewares/validateDicomFile.ts:48-50 | the missing list is empty iff every view is present, and it starts with the first absent view in order |
| DicomUploadFilter.MissingViewsAppend | back/src/middlewares/validateDicomFile.ts:50 | `filter` on a concatenation of view lists is the concatenation of the filtered lists, so the order of the views is kept |
| DicomUploadFilter.MissingViewsSingle | back/src/middlewares/validateDicomFile.ts:50 | a single view is kept iff its field is absent |
| DicomUploadFilter.Join | back/src/middlewares/validateDicomFile.ts:54 | `join(', ')` of no parts is empty, of one part is that part, and otherwise starts with the first part |
| DicomUploadFilter.ValidateDicomFiles | back/src/middlewares/validateDicomFile.ts:42-57 | no files gives the AppError 400 "no files"; with files and missing views, the AppError 400 "Faltan vistas requeridas: " followed by the missing views joined with ", "; every error it throws is an operational AppError with code 400 |
| DicomUploadFilter.TwoViewsMissingMessage | back/src/middlewares/validateDicomFile.ts:42-57 | an upload of only view1 and view3 is rejected with "Faltan vistas requeridas: view2, view4" and code 400 |
| DicomUploadFilter.ValidateDicomFilesOkIff | back/src/middlewares/validateDicomFile.ts:42-66 | `next()` runs iff files were uploaded and all four views are present; every thrown error is an `AppError` with code 400 and status 'fail' |
| DicomUploadFilter.RejectionAnsweredWith400 | back/src/middlewares/validateDicomFile.ts:43-57 | the thrown error is answered by the error handler with 400, 'fail' and its message |
| Utf8.DecodeAscii | front/my-app/src/components/FileUploadField/index.tsx:54 | ASCII bytes decode to the same code points |
| Utf8.DecodeLength | front/my-app/src/components/FileUploadField/index.tsx:54 | the decoder emits at most one code point per byte, plus one for a truncated sequence |
| Utf8.NonAsciiYieldsNonAscii | front/my-app/src/components/FileUploadField/index.tsx:54 | any non-ASCII byte makes a non-ASCII code point appear in the output, U+FFFD or a decoded character |
| Utf8.DecodeEqualsAsciiIff | front/my-app/src/components/FileUploadField/index.tsx:54-55 | for an ASCII text t, input no longer than t decodes to t iff it is exactly t's bytes; this holds even with the BOM dropped |
| FileUploadField.CheckFile | front/my-app/src/components/FileUploadField/index.tsx:27-75 | TooLarge iff over 50 MiB; acceptance needs at least 132 bytes and a successful parse, whose patient name it carries; a parse error comes only from a failed parse |
| FileUploadField.SizeLimit | front/my-app/src/components/FileUploadField/index.tsx:31-39 | a file is rejected as too large iff it has more than 50·1024·1024 bytes; the check precedes any reading |
| FileUploadField.MarkerAgreesWithBackEnd | front/my-app/src/components/FileUploadField/index.tsx:45-62 | within the size limit, the length and "DICM" checks pass iff the file has the PS3.10 signature, iff the back-end magic-number check passes |
| FileUploadField.HeadDecides | front/my-app/src/components/FileUploadField/index.tsx:88-89 | only the first 132 bytes decide the checks before parsing |
| FileUploadField.FileUploadField.HandleFileChange | front/my-app/src/components/FileUploadField/index.tsx:27-94 | no selection clears the name; any rejection alerts, clears the name and empties the input; on success `onFileUpload(file, name, patientName)` is called and the name is shown |
| FileUploadField.FileUploadField.HandleRemove | front/my-app/src/components/FileUploadField/index.tsx:95-103 | clears the name and the input, and calls `onFileRemove(name)` exactly when it was provided |
| DashboardForm.DashboardForm.HandleFileUpload | front/my-app/src/components/DashboardForm/index.tsx:16-25 | stores the file under its field, leaves the other entries, appends a new key to the key order, and takes a non-empty patient name as the study name |
| DashboardForm.DashboardForm.HandleFileRemove | front/my-app/src/components/DashboardForm/index.tsx:27-36 | deletes only that key and clears the study name iff the map held exactly one entry before the removal |
| DashboardForm.WithoutDistinct | front/my-app/src/components/DashboardForm/index.tsx:28-32 | removing a key keeps the key order free of duplicates, so the class invariant holds |
| DashboardForm.DashboardForm.IsFormValid | front/my-app/src/components/DashboardForm/index.tsx:75-80 | `isFormValid`; its meaning is stated by `FormValidIff` |
| DashboardForm.DashboardForm.SubmitDisabled | front/my-app/src/components/DashboardForm/index.tsx:180 | `!isFormValid \|\| isLoading`; its meaning is stated by `SubmitEnabledIff` |
| DashboardForm.SubmitEnabledIff | front/my-app/src/components/DashboardForm/index.tsx:75-180 | the button is enabled iff the study name has a non-white-space character, view1..view4 are chosen and no submission is under way |
| DashboardForm.FormValidIff | front/my-app/src/components/DashboardForm/index.tsx:75-80 | the form is valid iff the study name has a non-white-space character and view1..view4 are all chosen; `tomo` is not required |
| DashboardForm.DashboardForm.BuildFormData | front/my-app/src/components/DashboardForm/index.tsx:42-50 | the form carries every chosen file under its field name, in key order, then the four settings, each falling back to "" |
| DashboardForm.DashboardForm.HandleSubmit | front/my-app/src/components/DashboardForm/index.tsx:38-73 | loading ends off; the files are sent; success goes to the dashboard, a 401 refreshes and retries, anything else stays |
| ClaimsService.AuthStore.SetUserApprovedFalse | back/src/services/claims.service.ts:8-11 | for a known uid the claims become exactly `{approved: false}`; nothing is revoked and no other user changes |
| ClaimsService.AuthStore.ApproveUserByUid | back/src/services/claims.service.ts:17-29 | an unknown uid fails before any write; otherwise the old claims (or {}) gain `approved: true`, only that entry changes, and that uid's tokens are then revoked |
| ClaimsService.AuthStore.AssignAdminRole | back/src/services/claims.service.ts:34-46 | the same with `admin: true` |
| ClaimsService.WithApproved | back/src/services/claims.service.ts:19-24 | the merge adds `approved` set to true and keeps every other key and value |
| ClaimsService.WithAdmin | back/src/services/claims.service.ts:36-41 | the merge adds `admin` set to true and keeps every other key and value |
| ClaimsService.MergesIdempotent | back/src/services/claims.service.ts:21-24 | each merge applied twice equals it applied once |
| ClaimsService.MergesCommute | back/src/services/claims.service.ts:21-24 | the approve and admin merges commute |
| ClaimsService.ApproveAndPromote | back/src/services/claims.service.ts:17-46 | approving and promoting a user, in either order, gives the same claims and two revocations |
| ClaimsService.ApproveTwice | back/src/services/claims.service.ts:17-29 | a second approval leaves the claims as the first left them and only revokes again |
| Session.SessionCookie | back/src/middlewares/checkApprovedMiddleware.ts:11-12 | a session cookie exists iff the jar exists and holds a non-empty `__session` |
| CheckApproved.CheckApprovedMiddleware | back/src/middlewares/checkApprovedMiddleware.ts:9-40 | proceeds, with the decoded token as the user, iff the cookie is present, it verifies, and `approved` is truthy; a missing cookie and a failed verification both give 401, each with its own message; a falsy claim gives 403 |
| CheckApproved.TruthyApprovalPasses | back/src/middlewares/checkApprovedMiddleware.ts:23 | any truthy `approved` value passes, not only `true` |
| CheckApproved.MissingApprovalForbidden | back/src/middlewares/checkApprovedMiddleware.ts:23-28 | a verified token without `approved` is refused with 403 |
| CheckAdmin.CheckAdminMiddleware | back/src/middlewares/checkAdminMiddleware.ts:9-30 | proceeds, with the token as the user, iff the cookie is present, it verifies, and `admin === true`; a missing jar or a failed verification gives 401 "Cookie de sesión inválida."; a missing cookie gives 401 "No se proporcionó…"; otherwise 403 |
| CheckAdmin.TruthyNonBooleanAdminForbidden | back/src/middlewares/checkAdminMiddleware.ts:20-27 | a truthy `admin` that is not the boolean true is refused with 403 |
| VerifyAdmin.VerifyAdminController | back/src/controllers/verifyAdmin.controller.ts:4-24 | proceeds iff the cookie is present, it verifies, and `admin` is truthy; 401 'No autenticado' for no cookie, 401 'Sesión inválida' for a failed verification, 403 'No autorizado' for a falsy claim |
| VerifyAdmin.VerifyAdminRoute | back/src/routes/api.router.ts:95-115 | whatever the route echoes has `admin` equal to true |
| VerifyAdmin.MiddlewareImpliesController | back/src/controllers/verifyAdmin.controller.ts:14-17 | whoever `checkAdminMiddleware` admits, the controller admits too |
| VerifyAdmin.RouteAdmitsExactlyStrictAdmins | back/src/routes/api.router.ts:95-115 | the chain echoes a user iff the cookie is present, it verifies, and `admin === true`; every refusal is the middleware's own response |
| ValidateOrigin.AllowedOrigin | back/src/middlewares/validateOrigin.middleware.ts:8 | the allowed origin is the variable when set and non-empty, else "http://localhost:3000" |
| ValidateOrigin.ValidateOrigin | back/src/middlewares/validateOrigin.middleware.ts:3-14 | `next` runs iff the Origin header equals the allowed origin exactly; otherwise 403 "Origen no permitido" |
| ValidateOrigin.MissingOriginRejected | back/src/middlewares/validateOrigin.middleware.ts:9-12 | no configuration admits a missing or empty Origin header |
| RouteMiddleware.Middleware | front/my-app/src/middleware.ts:5-20 | redirects to /login iff the path starts with "/admin" with no cookie; redirects to /dashboard iff the path is /login or /register with a cookie; otherwise `next()`; only presence of the cookie is read |
| RouteMiddleware.AdminPrefixGuarded | front/my-app/src/middleware.ts:10-12 | every path beginning "/admin", such as /admin_dashboard, redirects without a cookie and passes with one |
| Pagination.PageNumber | back/src/middlewares/pagination.ts:13 | the page is at least 1: a positive parse is kept, and NaN, 0 and negatives become 1 |
| Pagination.Limit | back/src/middlewares/pagination.ts:9-15 | the limit is within 1..200; a NaN or "0" limit gives 50, a negative limit gives 1, and 1..200 are kept |
| Pagination.PaginationMiddleware | back/src/middlewares/pagination.ts:4-29 | the record carries that page and limit, a non-negative offset and `hasNext` false |
| Pagination.OffsetSelectsPage | back/src/middlewares/pagination.ts:18 | the offset is a multiple of the limit, and offset / limit is page − 1 |
| Pagination.FirstPageAtZero | back/src/middlewares/pagination.ts:18 | the offset is 0 iff the page is 1 |
| Pagination.ConsecutivePagesTile | back/src/middlewares/pagination.ts:18 | the next page starts exactly one limit after this one |
| ErrorHandler.NewAppError | back/src/middlewares/errorHandler.ts:9-16 | the error keeps its message and code, is operational, and has status 'fail' or 'error' |
| ErrorHandler.StatusFailIff | back/src/middlewares/errorHandler.ts:12 | status is 'fail' iff the code is positive with leading decimal digit 4, i.e. in some [4·10^k, 5·10^k); so 4, 40, 404 and 4000 fail |
| ErrorHandler.LeadingDigitFourIff | back/src/middlewares/errorHandler.ts:12 | the leading decimal digit is 4 exactly on the intervals [4·10^k, 5·10^k) |
| ErrorHandler.DigitsStartWithLeadingDigit | back/src/middlewares/errorHandler.ts:12 | the decimal text starts with the leading digit |
| ErrorHandler.ClientErrorCodesFail | back/src/middlewares/errorHandler.ts:12 | every code in 400..499 gives 'fail' |
| ErrorHandler.ServerErrorCodesError | back/src/middlewares/errorHandler.ts:12 | every code in 500..599 gives 'error' |
| ErrorHandler.HandleError | back/src/middlewares/errorHandler.ts:19-53 | an AppError is answered with its own code, and a body carrying its own status and message; anything else with 500 and the body status 'error' with the fixed generic message, whatever the error said |
| ErrorHandler.ResponseStatusAgrees | back/src/middlewares/errorHandler.ts:34-37 | for a constructed AppError the body status is 'fail' iff the code text starts with '4' |
| ErrorHandler.UnexpectedHidesMessage | back/src/middlewares/errorHandler.ts:41-52 | all non-AppError errors give the same response, so their messages never leak; the status is 'error' |
| ErrorHandling.HandleApiError | front/my-app/src/utils/errorHandling.ts:10-78 | no response gives NETWORK_ERROR; 401 gives UNAUTHORIZED and 403 FORBIDDEN; ≥ 500 gives SERVER_ERROR; it throws exactly for a 422 whose body is null or undefined |
| ErrorHandling.ValidationMessage | front/my-app/src/utils/errorHandling.ts:42-49 | a 422 gives VALIDATION_ERROR, low, with `data.message` when truthy and the default text otherwise |
| ErrorHandling.StatusBeforeBody | front/my-app/src/utils/errorHandling.ts:52-69 | a 5xx with a custom `error` in the body is still SERVER_ERROR |
| ErrorHandling.CustomErrorBranch | front/my-app/src/utils/errorHandling.ts:62-77 | for the other statuses, a truthy body `error` is reported as the message; a truthy `code` and `severity` are copied, and otherwise default to 'UNKNOWN_ERROR' and 'medium'; a non-nullish `isUserFacing`, an explicit false included, is kept and a missing one becomes true; without a truthy `error` the result is UNKNOWN_ERROR |
| ErrorHandling.BuiltinBranchesUserFacing | front/my-app/src/utils/errorHandling.ts:12-77 | every branch that does not copy the body is user-facing |
| Security.FirstMissing | front/my-app/src/utils/security.ts:21-26 | returns nothing iff every key is present, else the first absent key in list order |
| Security.VerifyDataIntegrity | front/my-app/src/utils/security.ts:36-57 | `verifyDataIntegrity`; its meaning is stated by `VerifyDataIntegrityIff` |
| Security.VerifyDataIntegrityIff | front/my-app/src/utils/security.ts:36-57 | integrity holds iff the value is an object with a non-empty string `uid`, a string `email` containing '@' and a boolean `approved` |
| Security.ValidateMedicalUserData | front/my-app/src/utils/security.ts:15-34 | returns the input unchanged iff it is a non-null object with all five keys and a string email containing '@'; a null or non-object input gives 'Datos de usuario inválidos' |
| Security.MissingFieldNamed | front/my-app/src/utils/security.ts:21-26 | the error names the first missing key in the order email, approved, admin, email_verified, uid |
| Security.ArrayLacksEmail | front/my-app/src/utils/security.ts:16-24 | an array passes the object test and is reported as lacking `email` |
| Security.ValidatedYetNotIntact | front/my-app/src/utils/security.ts:21-33 | validation checks presence only: a record with a numeric `uid` validates but fails the integrity check |
| Security.IntactYetNotValidated | front/my-app/src/utils/security.ts:42-52 | a record passing the integrity check may still lack `admin` and fail validation |
| SignupPage.ValidatePassword | front/my-app/src/app/signup/page.tsx:27-30 | the password regex; its meaning is stated by `ValidatePasswordIff` and `DotStarThenIff` |
| SignupPage.ValidatePasswordIff | front/my-app/src/app/signup/page.tsx:27-31 | the regular expression accepts a password iff it has at least 8 characters, all from A-Za-z0-9@$!%*?&, with at least one lowercase letter, one uppercase letter, one digit and one special |
| SignupPage.DotStarThenIff | front/my-app/src/app/signup/page.tsx:29 | on a string without line terminators, the look-ahead `(?=.*[k])` holds iff the string contains a character of class k |
| SignupPage.ForeignCharacterRejects | front/my-app/src/app/signup/page.tsx:29 | a space, '#' or '_' anywhere causes rejection |
| SignupPage.RegistrationError | front/my-app/src/app/signup/page.tsx:50-63 | checks run required → DNI → password, and the first failure's message is set; registration proceeds iff all pass |
| SignupPage.RegistrationAcceptedIff | front/my-app/src/app/signup/page.tsx:50-63 | registration proceeds iff the seven fields are non-blank, the DNI is all ASCII digits, and the password is strong; healthcenter plays no part |
| SignupPage.PaddedDniRejected | front/my-app/src/app/signup/page.tsx:50-58 | " 123" passes the required check and fails the DNI check |
| SignupPage.RegisterPage.ValidateBeforeRegister | front/my-app/src/app/signup/page.tsx:50-65 | the error state becomes the first failing check's message, or is cleared when registration goes on |
| SignupPage.WaitForClaims | front/my-app/src/app/signup/page.tsx:11-24 | at most maxAttempts polls; it returns the first claims whose `approved` is not undefined, all earlier polls having none, or fails after exactly maxAttempts unready polls |
| SignupPage.WaitForClaimsByDefault | front/my-app/src/app/signup/page.tsx:11-89 | with the default of five attempts, at most five polls; it fails iff none of the five polls is ready, and otherwise returns the ready claims of the last poll |
| SignupPage.RouteAfterClaims | front/my-app/src/app/signup/page.tsx:101-105 | goes to /dashboard iff `approved === true`, else /verification |
| SignUpForm.ValidationError | front/my-app/src/components/SignUpForm/index.tsx:23-37 | the six required fields must be non-blank, healthcenter excepted, then the untrimmed DNI must be digits; the first failing message is reported |
| SignUpForm.Payload | front/my-app/src/components/SignUpForm/index.tsx:41-49 | seven keys, none of them a password, each carrying the form's own untrimmed value for the field of that name |
| SignUpForm.PayloadCarriesEveryField | front/my-app/src/components/SignUpForm/index.tsx:41-49 | the payload names exactly the seven fields, each once |
| SignUpForm.SignUpForm.HandleRegister | front/my-app/src/components/SignUpForm/index.tsx:19-78 | clears the error first; a validation failure sets its message and neither loads nor posts; otherwise the payload is posted, loading ends off, and success, server error (`error ‖ "Error al crear la sesión"`) or thrown message are recorded |
| ContactSchema.ContactIssues | front/my-app/src/validations/validationSchema.ts:3-12 | no issues iff nombre, apellido and centroDeSalud are non-empty, telefono is non-empty and matches `^\+?\d{7,15}$`, and the email check passes; every issue names one of the five fields |
| ContactSchema.PlusNotCounted | front/my-app/src/validations/validationSchema.ts:9 | "+1234567" and "1234567" are valid; "+123456" and "++1234567" are not |
| ContactSchema.EmptyPhoneTwoIssues | front/my-app/src/validations/validationSchema.ts:6-9 | an empty phone reports both the required and the format message |
| ContactSchema.BlankNamesPass | front/my-app/src/validations/validationSchema.ts:4-11 | white-space-only names pass, since values are not trimmed |
| StudiesList.FormatDate | front/my-app/src/components/StudiesList/index.tsx:63-64 | an absent or empty date gives "N/A" |
| StudiesList.FullDateLayout | front/my-app/src/components/StudiesList/index.tsx:65-68 | an 8-character YYYYMMDD gives 10 characters, with '/' at 2 and 5 and the day, month and year parts in place |
| StudiesList.RoundTrip | front/my-app/src/components/StudiesList/index.tsx:65-68 | reading the three parts back from the displayed date recovers the stored date |
| StudiesList.YearOnly | front/my-app/src/components/StudiesList/index.tsx:65-67 | a short date is clamped, not rejected: "2023" gives "//2023" |
| StudiesList.IgnoresTail | front/my-app/src/components/StudiesList/index.tsx:65-67 | characters after the eighth do not change the result |
| DicomService.ExtractMetadata | dicom-utils/dicom_service.py:8-19 | the loop builds exactly the selection of the nine fields, in field order |
| DicomService.Selected | dicom-utils/dicom_service.py:8-19 | at most one pair per field; every pair names a listed field whose value is not `None` and carries its `str`; membership and order are stated by the next rows |
| DicomService.SelectedMembers | dicom-utils/dicom_service.py:15-18 | a pair is in the result iff its key is a listed field whose value is not None, with `str` of that value; empty strings are kept |
| DicomService.SelectedInOrder | dicom-utils/dicom_service.py:10-19 | the result's keys appear in the order of the field list |
| DicomService.NothingSelected | dicom-utils/dicom_service.py:9-19 | a dataset with none of the fields gives {} |
| DicomService.ExtractDicomMetadata | dicom-utils/dicom_service.py:21-51 | no `dicom_file` gives 400 before any parsing; a read failure gives 500 with its message; format 'txt' gives the attachment metadata.txt, anything else JSON |
| PreventMultipleResponses.Raise | back/src/middlewares/preventMultipleResponses.ts:8-12 | a call sets the flag of every wrapper it passes: those up to and including the first one already set, or all of them |
| PreventMultipleResponses.RaiseIdempotent | back/src/middlewares/preventMultipleResponses.ts:8-12 | a second call changes no flag the first left |
| PreventMultipleResponses.RaisedNotClear | back/src/middlewares/preventMultipleResponses.ts:8-12 | after one call through at least one wrapper, some flag is set |
| PreventMultipleResponses.Reply | back/src/middlewares/preventMultipleResponses.ts:7-14 | a call writes iff no flag is set, nothing has gone out yet, and the body is text or `send` is not wrapped at all (an object's re-entry through `res.json` is swallowed); it throws iff no flag is set and a response has already gone out; what it writes is the body's text |
| PreventMultipleResponses.Response.Walk | back/src/middlewares/preventMultipleResponses.ts:7-14 | the loop through the wrappers reaches the original `send` iff no flag is set, and leaves the flags as `Raise` says |
| PreventMultipleResponses.Response.Send | back/src/middlewares/preventMultipleResponses.ts:7-14 | `res.send(body)` ends as `Reply` says, writes the body exactly when the outcome is a write, and leaves the flags as `Raise` says, re-entering the wrappers once for an object body |
| PreventMultipleResponses.Install | back/src/middlewares/preventMultipleResponses.ts:3-17 | wraps the current `send` with a new, unset flag outside any earlier wrapper, and calls `next` once |
| PreventMultipleResponses.Outcomes | back/src/middlewares/preventMultipleResponses.ts:7-14 | a series of sends has one outcome per send |
| PreventMultipleResponses.Written | back/src/middlewares/preventMultipleResponses.ts:7-14 | no more bodies go out than there were sends, and none iff no outcome is a write |
| PreventMultipleResponses.WrittenAppend | back/src/middlewares/preventMultipleResponses.ts:7-14 | the bodies written by two series in a row are those of the first followed by those of the second |
| PreventMultipleResponses.OutcomesSnoc | back/src/middlewares/preventMultipleResponses.ts:7-14 | one more send ends as `Reply` says on the flags the earlier sends left and on whether they wrote anything |
| PreventMultipleResponses.AtMostOneWritten | back/src/middlewares/preventMultipleResponses.ts:3-14 | however many sends, at most one body goes out, and none once a response has gone out |
| PreventMultipleResponses.SetFlagSwallows | back/src/middlewares/preventMultipleResponses.ts:8-11 | behind a wrapper whose flag is set, every send is swallowed |
| PreventMultipleResponses.WrapperPreventsThrow | back/src/middlewares/preventMultipleResponses.ts:3-14 | behind at least one wrapper installed before anything went out, no send ever reaches Express's failing second `send` |
| PreventMultipleResponses.UnwrappedAfterSentThrows | back/src/server.ts:58-60 | unwrapped, once a response has gone out every send throws |
| PreventMultipleResponses.UnwrappedRepeatThrows | back/src/server.ts:58-60 | unwrapped, the first send goes out and every later one throws |
| PreventMultipleResponses.PrefixStep | back/src/middlewares/preventMultipleResponses.ts:7-14 | one more send extends the outcomes of a prefix by its own outcome, and the written bodies by its body when it writes |
| PreventMultipleResponses.SendAll | back/src/middlewares/preventMultipleResponses.ts:4-14 | any sequence of sends ends as `Outcomes` says and puts on the wire exactly what those outcomes wrote |
| PreventMultipleResponses.Request | back/src/middlewares/preventMultipleResponses.ts:3-17 | with the middleware run once, of several text sends exactly the first goes out, and `next` ran once |
| PreventMultipleResponses.ObjectBodyThroughWrapper | back/src/middlewares/preventMultipleResponses.ts:7-14 | with the middleware run once, a first send of an object puts nothing on the wire, and neither does any later send |
| PreventMultipleResponses.InstalledTwice | back/src/middlewares/preventMultipleResponses.ts:4-14 | with the middleware run twice around one send, a send after the second run is still swallowed, so only the first body goes out |
| Js.TrimEmptyIff | front/my-app/src/components/DashboardForm/index.tsx:76 | `s.trim()` is empty iff every character is ECMAScript white space or a line terminator |
| Js.Substring | front/my-app/src/components/StudiesList/index.tsx:65-67 | `substring` clamps its indices and never fails; in range it is the slice |

## Left out

- Asynchronous control flow is left out: promises, the `FileReader` callbacks, React state batching, timers (the 2-second success modal and navigation in `SignUpForm`), and the recursive retry after a 401 in `DashboardForm` (modelled only as the `RefreshAndRetry` outcome).
- Calls into outside code become parameters and are not modelled: Firebase Admin and Client, SHA-256, `dicomParser`, `pydicom`, zod's e-mail rule and `parseInt`.
- `encryptData`, `decryptData`, `logSecurityEvent`, `clearAppState` and `setupSessionTimeout` in `security.ts` are left out: they are cryptography, network and DOM side effects.
- The logging of `logError`, `logger` and `console` is left out.
- JavaScript numbers are unbounded integers here. Fractions, NaN as a value, `-0` and precision beyond 2^53 are not modelled. `parseInt` results enter already parsed.
- Insertion order of integer-like object keys, which JavaScript lists first, is not modelled. The dashboard keeps plain insertion order.
- PreventMultipleResponses.Body: a body is either text that Express's `send` writes as it is, or an object that `send` hands to `res.json`. Numbers, booleans and `null`, which Express's `send` handles in other ways, are not modelled. The JSON serialisation of an object enters as a value.
- DicomUploadFilter.FilterVerdict: multer's own `limits.fileSize` cap (back/src/middlewares/validateDicomFile.ts:37-39) is not modelled. It aborts an oversized upload with a `MulterError`, which `errorHandler` answers as a 500 with the generic message. The filter's size branch is modelled as written and shown unreachable by `SizeBranchUnreachable`.
- A `FileReader` failure and a `result` that is not an `ArrayBuffer` are not modelled. In both cases the source does nothing.
- DicomFileGate.ValidateDICOMFiles: exceptions thrown inside the gate, which go to `next(error)`, are not modelled, because the only calls that could throw (hashing, property access on a well-formed record) are outside the model.
- SignUpForm.SignUpForm.HandleRegister: the model shows that loading is off after a validation failure has stopped it, and off at the end otherwise. The intermediate `isLoading = true` while the request is out is not observable in this sequential model.
- VerifyAdmin.VerifyAdminRoute: both gates on `/verify_admin` call `verifySessionCookie`. The model gives both calls the same result, so a revocation between the two calls is not modelled.
- ClaimsService.AuthStore.SetUserApprovedFalse: Firebase's rejection of an unknown uid is modelled as "no write". The exact error is not modelled.
- The thin controllers, the upload orchestration, the DICOMweb clients, and the server, router and multer wiring are left out. They are I/O plumbing around the modelled checks. The `/verify_admin` route chain is the exception: it is modelled.
- The registration page's steps after validation are left out: account creation, session-cookie posts and the `registerData` post. They are network calls. Their outcome enters only via `WaitForClaims` and `RouteAfterClaims`.
- `formatDate` counts code points where JavaScript counts UTF-16 code units. They differ only for dates containing astral characters.
- In the metadata service, the JSON text of the reply (`json.dumps` with indent 2) and the `send_file` stream are left out. The model returns the ordered metadata itself. That order, proved by `SelectedInOrder`, is the key order of the `txt` attachment only. The default JSON reply goes through `jsonify`, which sorts keys by Flask's default, so its keys come out in alphabetical order.
