# Project-management backend: request rules, in Dafny

This project models the deterministic rules inside the Express/Mongoose handlers of
a project/task-management backend and proves properties of them:

- **Project listing** (`getProjects`): query defaults, the projects a user may see,
  the sort stage, the page window taken by `$skip`/`$limit`, and the page metadata
  with `totalPages = ceil(total / limit)` (module `Pagination`).
- **Project and membership store**: `createProject`, `addMemberToProject`,
  `updateMemberRole`, `deleteMember` as atomic updates of a store holding the
  projects in insertion order and a map from (project, user) to role string
  (module `Registry`), the membership document schema (`MemberSchema`) and the
  role checks `checkAdmin`, `checkProjectAdmin`, `checkProjectMember` (`CheckRole`).
- **Validators and shapers**: the task and subtask partial-update payloads, the
  assignee precondition, attachment lists and the attachment limit (`Tasks`); the
  upload MIME allowlist, file-name rule and upload limits (`Uploads`); the
  validation-error extractor (`Validation`); the global error response
  (`ErrorHandler`); the Mailgen content builders and the mail envelope (`Mail`);
  the shared enumerations (`Constants`).

Every database lookup is a parameter: the membership found for a (project, user)
pair is an `Option<MemberRecord>` or the store's map, the user found by e-mail is
an `Option<UserId>`, existing tasks and subtasks are sets or maps of ids, the id
the database assigns to a new project is a parameter required to be fresh. The
cloud upload (`upload`), the Mailgen renderers, the mail transport, the random
file-name suffix and `NODE_ENV` are parameters too. A handler that throws returns
`Failure(...)`; for the project controller that failure is either an `ApiError`
(status and message) or the schema's failing paths (a Mongoose validation error,
which reaches the client as a 500), for the task controller only an error kind.

The asynchronous e-mail queue is left out: `queues/emailQueue.js` and
`workers/emailWorker.js` only construct BullMQ objects, and the worker always sends
the verification template whatever the job holds.

## Model

| member | source | states |
|---|---|---|
| Constants.ParseRole | src/utils/constant.js:3-7 | a string parses to a role only when it is one of the three role strings, and then to the role with that name |
| Constants.RoleRoundTrip | src/utils/constant.js:3-9 | parsing a role's name gives the role back; parsing succeeds exactly on the values of AvailableUserRoles |
| Constants.RoleNamesDistinct | src/utils/constant.js:4-6 | two roles have the same string iff they are the same role |
| Constants.AvailableUserRolesOrder | src/utils/constant.js:3-9 | AvailableUserRoles is ["admin", "project_admin", "member"] in that order, pairwise distinct |
| Constants.AvailableTaskStatusesOrder | src/utils/constant.js:11-17 | AvailableTaskStatuses is ["todo", "in_progress", "done"] and contains every status's name |
| Constants.AllowedMimeTypesContents | src/utils/constant.js:19-30 | the allowlist has exactly 7 distinct entries, among them application/pdf, image/png, image/jpeg and text/plain |
| MemberSchema.NewMember | src/models/projectmember.models.js:4-21 | a membership document is built iff user and project are given and the role (default "member") is in the enumeration; a refusal lists exactly the failing paths |
| CheckRole.CheckAdmin | src/utils/checkRole.js:3-12 | passes iff a membership exists and its role is "admin"; otherwise fails with 401 |
| CheckRole.CheckProjectAdmin | src/utils/checkRole.js:14-23 | passes iff a membership exists and its role is exactly "project_admin"; otherwise fails with 401 |
| CheckRole.CheckProjectMember | src/utils/checkRole.js:25-36 | passes iff a membership exists and returns that record; otherwise fails with 403 |
| CheckRole.AdminsAreMembers | src/utils/checkRole.js:9-31 | whoever passes either admin check passes the membership check |
| CheckRole.AdminChecksExclusive | src/utils/checkRole.js:9-20 | no membership passes both admin checks |
| CheckRole.UnknownRoleIsPlainMember | src/utils/checkRole.js:9-35 | a membership whose role is outside the enumeration passes neither admin check but is still a member |
| Registry.FindMember | src/utils/checkRole.js:4-7 | the lookup finds a record iff the (project, user) pair is stored, carrying that pair and its stored role |
| Registry.CreateProject | src/controllers/project.controller.js:214-268 | succeeds iff name and description are non-empty and the name is unused; then the project is appended and exactly one membership, (creator, new project, "admin"), is added; refusals are 400 |
| Registry.AddMember | src/controllers/project.controller.js:341-365 | succeeds iff role and user are given, the pair is not yet stored and the role is in the enumeration; a missing field is 400 "All fields are required", a stored pair is 400 "User is already a member of this project" whatever the role, a bad role is the schema refusal of the role path; on success exactly that one membership is added and nothing else changes |
| Registry.UpdateMemberRole | src/controllers/project.controller.js:389-408 | succeeds iff user is given and the pair is stored (400 / 404 otherwise); only that membership's role changes, to the given string |
| Registry.UpdateMemberRoleChecked | src/controllers/project.controller.js:397-401 | the role update with the enumeration enforced: agrees with UpdateMemberRole when it succeeds and keeps every stored role valid |
| Registry.DeleteMember | src/controllers/project.controller.js:410-429 | succeeds iff user is given and the pair is stored (400 / 404 otherwise); exactly that membership is removed |
| Registry.CreatorIsAdmin | src/controllers/project.controller.js:242-251 | after createProject the creator passes the admin check on the new project and every other lookup is unchanged |
| Registry.CreateProjectPreservesInvariants | src/controllers/project.controller.js:222-251 | createProject keeps project ids and names unique and every stored role valid |
| Registry.NamesStayUnique | src/controllers/project.controller.js:222-225 | creating a second project with a name just used is refused with 400 |
| Registry.MembershipStaysUnique | src/controllers/project.controller.js:349-352 | adding the same (project, user) pair a second time is refused with 400 |
| Registry.AddThenDelete | src/controllers/project.controller.js:349-426 | deleting a member just added restores the original store |
| Registry.DeleteThenAdd | src/controllers/project.controller.js:345-426 | re-adding a deleted member with its old role restores the original store |
| Registry.UpdateToSameRoleIsIdentity | src/controllers/project.controller.js:397-401 | updating a member to the role it has changes nothing |
| Registry.AddDeletePreserveRoles | src/models/projectmember.models.js:16-20 | adding and deleting members keep every stored role in the enumeration |
| Registry.UpdateMemberRoleBreaksRoles | src/controllers/project.controller.js:397-401 | the role update as written can store "owner", breaking the schema's role restriction |
| Registry.MemberChecksFollowStore | src/controllers/project.controller.js:354-426 | an added member passes the membership check, and the admin check iff added as "admin"; a deleted one is refused with 403 |
| Pagination.Skip | src/controllers/project.controller.js:13-23 | with no page the skip is 0; with the default limit it is (page - 1) * 10; the next page starts limit rows later |
| Pagination.SortDirection | src/controllers/project.controller.js:16-24 | the direction is 1 exactly when sortOrder is "asc" and -1 otherwise, including the default |
| Pagination.Filter | src/controllers/project.controller.js:29-34 | a match stage keeps every row its condition accepts as often as it occurs in the input, and no other row |
| Pagination.FilterAppend | src/controllers/project.controller.js:29-34 | the match stage over a concatenation is the stage over each part in turn, so kept rows stay in input order |
| Pagination.Trim | src/controllers/project.controller.js:49 | `trim()` cuts exactly the leading and trailing white space and line terminators of ECMAScript: empty iff the text is all white space, otherwise it starts and ends with a non-space character |
| Pagination.SearchActive | src/controllers/project.controller.js:18-49 | the search stage is added iff a search text is given and some character of it is not white space (absent defaults to "") |
| Pagination.BlankSearchListsAll | src/controllers/project.controller.js:49-63 | for every search text made only of white space and line terminators (the empty text included) no search stage is added and every visible project is listed |
| Pagination.Visible | src/controllers/project.controller.js:26-34 | a project is listed iff it is stored and the user is a member of it or created it |
| Pagination.Listed | src/controllers/project.controller.js:48-63 | with a search text that is not blank after trimming, only visible projects matching it are listed; otherwise every visible project is |
| Pagination.Insert | src/controllers/project.controller.js:96-100 | inserting into a sorted listing gives a sorted listing with exactly one more row |
| Pagination.Sort | src/controllers/project.controller.js:96-100 | the sort stage returns a permutation of its input ordered by the sort key in the requested direction |
| Pagination.PageSlice | src/controllers/project.controller.js:117 | the page is the rows from position skip on, at most limit of them, empty when skip is past the end |
| Pagination.CeilDiv | src/controllers/project.controller.js:111-113 | for total >= 1, (pages - 1) * limit < total <= pages * limit; zero totals give zero pages |
| Pagination.FacetMeta | src/controllers/project.controller.js:104-141 | total, page and limit are echoed; totalPages is ceil(total / limit); an empty listing gives {0, page, limit, 0} |
| Pagination.GetProjects | src/controllers/project.controller.js:10-152 | the page holds at most limit visible (and, under a search, matching) projects in sorted order; the total counts all listed projects and page and limit are echoed |
| Pagination.GetProjectsIsWindow | src/controllers/project.controller.js:96-149 | the returned rows are the sorted listing's rows from position Skip on, min(remaining, limit) of them and none past the end; the metadata is that of the whole listing; the message says whether the page is empty |
| Pagination.FirstPagesArePrefix | src/controllers/project.controller.js:117 | the first n pages cut from one sorted listing together are its first n * limit rows |
| Pagination.PagesCoverListing | src/controllers/project.controller.js:110-117 | the pages 1 to totalPages of one sorted listing tile it: together they are exactly that listing, in order |
| Pagination.PagesPastEndEmpty | src/controllers/project.controller.js:110-117 | any page after totalPages is empty |
| Pagination.EmptyMetaIsFormula | src/controllers/project.controller.js:134-141 | the empty-listing default equals the general metadata formula at total 0 |
| Pagination.DefaultQuery | src/controllers/project.controller.js:13-24 | with no parameters the skip is 0, the order descending, and the first ten sorted projects are returned |
| Pagination.ListingPage | src/controllers/project.controller.js:104-149 | the page is the window of the sorted listing after skip rows, of length min(remaining, limit) and empty past the end; the metadata counts the whole listing; the message says whether the page is empty |
| Pagination.EmptyListing | src/controllers/project.controller.js:134-149 | a user who sees nothing gets an empty page, {0, page, limit, 0} and "No projects found" |
| Uploads.FileFilter | src/middlewares/multer.middleware.js:20-26 | accepts a file iff its MIME type is on the allowlist; any other type is refused as unsupported |
| Uploads.StoredFilename | src/middlewares/multer.middleware.js:7-9 | the stored name is the field name, a dash, then the suffix |
| Uploads.StoredFilenameInjective | src/middlewares/multer.middleware.js:7-9 | for one field name, distinct suffixes give distinct file names |
| Uploads.AcceptFrom | src/middlewares/multer.middleware.js:28-32 | the remaining files are kept iff they fit in the count left and each is allowed; kept files keep their order |
| Uploads.AcceptTaskUploads | src/middlewares/multer.middleware.js:28-32 | a request's files are kept iff at most 5, all under "attachments", of an allowed type and at most 10000 * 1024 * 1024 bytes |
| Uploads.SixFilesRefused | src/middlewares/multer.middleware.js:32 | six files are always refused |
| Uploads.SizeLimitBoundary | src/middlewares/multer.middleware.js:28-32 | an allowed file of 10485760000 bytes is kept; one of 10485760001 bytes is refused as too large |
| Tasks.CheckAssignee | src/controllers/task.controller.js:18-30 | an assignee is accepted iff the user was found and is a member of the project; the two refusals are distinct |
| Tasks.AttachmentsOf | src/controllers/task.controller.js:44-56 | one attachment per file, in upload order, with that file's MIME type, size and uploaded URL |
| Tasks.CreateTask | src/controllers/task.controller.js:12-61 | succeeds iff the assignee is accepted; the task is assigned by the caller to the assignee, with one attachment per uploaded file, none without a file array |
| Tasks.UpdateTask | src/controllers/task.controller.js:215-249 | the payload holds title iff given, description unless it is "" (so also when absent), assignedTo iff an e-mail is given and the user is a project member; the task must exist |
| Tasks.UpdateSubTask | src/controllers/task.controller.js:275-297 | refused when neither title nor isCompleted is given; otherwise the payload holds exactly the given ones; the subtask must exist |
| Tasks.ApplySubTaskUpdate | src/controllers/task.controller.js:288 | applying a payload sets each field it holds and keeps each field it lacks |
| Tasks.UpdateSubTaskApplies | src/controllers/task.controller.js:279-288 | an accepted update changes exactly the fields the request gave, and applying it twice equals applying it once |
| Tasks.UpdateTaskFollowsMembership | src/controllers/task.controller.js:225-243 | after the assignee is added to the project the update succeeds and assigns them; after their membership is deleted it is refused as naming a non-member |
| Tasks.AddAttachmentsAsWritten | src/controllers/task.controller.js:397-413 | as written, every request for an existing task with files fails on the undeclared name `task` |
| Tasks.AddAttachments | src/controllers/task.controller.js:397-436 | refuses a missing task or empty upload; refuses existing + new > MAX_ATTACHMENTS reporting MAX - existing; fails when an upload returned no result, as reading its secure_url throws; otherwise appends the new attachments, each with its URL, after the existing ones and changes nothing else |
| Tasks.AddAttachmentsReferenceError | src/controllers/task.controller.js:410-413 | a task with no attachments and one file that uploads: the handler as written fails, the intended one succeeds |
| Tasks.AttachmentsOfAppend | src/controllers/task.controller.js:421-432 | attachments built from two batches are the first batch's followed by the second's |
| Tasks.UploadedAttachmentsAllowed | src/controllers/task.controller.js:44-57 | a task created from files the upload middleware kept has at most 5 attachments, each of an allowed type and size |
| Validation.Extract | src/middlewares/validator.middleware.js:11-13 | one entry per validation error, in order, each a map whose only key is the error's path, mapped to its message |
| Validation.Validate | src/middlewares/validator.middleware.js:4-16 | the request proceeds iff there are no errors; otherwise a 400 "Received data is not valid" error carrying the extracted entries is forwarded |
| Validation.ExtractLosesNothing | src/middlewares/validator.middleware.js:11-13 | each entry has one key and reading it back gives the original error |
| Validation.ExtractInjective | src/middlewares/validator.middleware.js:11-13 | distinct error lists give distinct extracted lists |
| ErrorHandler.GlobalErrorHandler | src/utils/global-error-handler.js:1-10 | status is statusCode when truthy else 500; success only when true; message when non-empty else "Internal Server Error"; errors when present else []; stack present iff NODE_ENV is "development" |
| ErrorHandler.ApiErrorPassesThrough | src/utils/global-error-handler.js:2-7 | an ApiError with a status and a message reaches the client with those, its details, and success false |
| ErrorHandler.EmptyErrorDefaults | src/utils/global-error-handler.js:2-8 | an error with no fields gets 500, false, "Internal Server Error", [] and no stack outside development |
| ErrorHandler.ValidationFailureResponse | src/middlewares/validator.middleware.js:11-15 | a failed validation is answered with 400, the fixed message and one entry per error |
| Mail.EmailVerificationContent | src/utils/mail.js:42-58 | the verification content greets the username and its button links to the verification URL |
| Mail.ForgotPasswordContent | src/utils/mail.js:60-76 | the reset content greets the username and its button links to the reset URL |
| Mail.BuildersDifferOnlyInTexts | src/utils/mail.js:42-76 | the reset content is the verification content with intro, instructions and button text replaced; colour and outro are shared; the two never coincide |
| Mail.ContentRoundTrip | src/utils/mail.js:42-58 | the username and link can be read back from the content |
| Mail.BuildEnvelope | src/utils/mail.js:26-32 | the sender is fixed, recipient and subject are the options' own, text and HTML are the rendered content |
| Mail.SendMail | src/utils/mail.js:34-39 | the envelope goes to the transport; the log records the message id on success and the error on failure; the caught failure leaves the caller's promise resolved |
| Mail.SendMailIgnoresTransport | src/utils/mail.js:4-40 | two transports give the caller the same result and receive the same envelope; the logs agree when the transports answer alike |

## Left out

- The BullMQ queue and worker and the Redis connection (`queues/`, `workers/`): all job state, retry and redelivery behaviour lives in the library; the worker's only rule is to always send the verification template.
- MongoDB aggregation shapes (`$lookup`, `$unwind`, `$project`) and the case-insensitive collation of `getProjects`: library semantics. The sort field's value is abstracted as `rank`, its position in the collation order, and the regex match of the search text as the predicate `matches`. Every project is assumed to have an existing creator (the `$unwind` of `createdBy` drops those that do not).
- Pagination.Sort: MongoDB's `$sort` promises no order among rows of equal rank; the model fixes one (insertion order), so only sortedness and permutation are meaningful.
- Pagination.GetProjects: requires page and limit to be at least 1 when given; `parseInt` of non-numeric strings, NaN and zero or negative values are not modelled. A `search` parameter that is not a string (an array from `?search=a&search=b`, an object from `?search[x]=1`) makes `search.trim()` throw a TypeError and the handler answer 500; the model takes `search` to be a string or absent. Two more error paths are not modelled, because `matches` and `rank` are total: a search text that is not blank but is not a valid regular expression (such as `(` or `*`) makes the `$regex` stage throw, and a `sortField` MongoDB refuses as a sort key (empty, or starting with `$`) makes the `$sort` stage throw; in both cases the handler answers 500, where the model returns a page.
- Pagination.PagesCoverListing: the tiling is of one sorted listing. Each page is a separate request with its own `$sort`, and MongoDB orders rows of equal rank arbitrarily, so across requests rows can repeat or be skipped unless the ranks are distinct; the same holds for Pagination.FirstPagesArePrefix.
- Pagination.CeilDiv: the handler's `$ceil` of a floating-point `$divide` is modelled as exact integer ceiling division.
- Transactions and sessions in `createProject`: each successful handler is one atomic update, so the duplicate-key (11000) catch path and the "failed to assign the creator" branch cannot arise and are not modelled.
- `updateProject`, `deleteProject`, `getProjectById`, `getProjectMembers`, and in the task controller `getTasks`, `getTaskById`, `deleteTask`, `createSubTask`, `getSubTasks`, `getSubTaskById`, `deleteSubTask`, `deleteAttachments`: each is a database call or aggregation with no rule of its own. Their not-found checks are defective as written (`updateProject` tests the handler binding; `getTaskById` and `getSubTaskById` test an array, which is always truthy), and `deleteProject` uses `Task` and `ProjectNote` without importing them, so its transaction always aborts.
- Registry.UpdateMemberRole: an absent role is modelled as leaving the stored role unchanged, which is what a Mongoose version that strips undefined update keys does; older versions may behave differently.
- Undeclared names, modelled by their evident rule: `checkRole.js` uses `ProjectMember` and `ApiError` without importing them, `multer.middleware.js` uses `allowedMimeTypes` and `ApiError` without importing them, and `projectmember.models.js` imports `AvilablesUserRoles` from a misspelt path. As written these fail at load or call time.
- The `deleteMember` route is `/member/:projectId` with no `:userId`, so through that route the handler always answers 400. The `addAttachments` route (`src/routes/task.routes.js:60`) has no upload middleware, so through it `req.files` is undefined and the handler answers 400 at line 406 before reaching line 410; and `src/app.js` mounts neither the project nor the task router. The project, task and note route files import `validateProjectPermission` from `src/middlewares/auth.middleware.js`, which exports only `verifyJwt`, so none of those route files loads. Route wiring is not modelled: the handlers are modelled as called with the request they read.
- HTTP status codes of the task controller's errors: its `ApiError` calls pass status and message in inconsistent order, so errors there are kinds only.
- The task schema (`task.models.js`) is not part of this model: validation on `Task.create`, a default status, and what `findByIdAndUpdate` does with a payload key whose value is undefined.
- The user lookup `User.findOne({ email })` with an absent e-mail, ObjectId casting errors, and cloud-upload failures (`Promise.all` rejecting in `addAttachments`) are not modelled; the lookups are parameters.
- Deleting the uploaded files from disk when the attachment limit is exceeded (`fs.unlinkSync`) is a file-system effect and is not modelled.
- Tasks.AddAttachments: `MAX_ATTACHMENTS` is a numeric parameter; reading it from the environment as a string is not modelled.
- ErrorHandler.GlobalErrorHandler: `success` is modelled as an optional boolean and the status as an optional integer, so non-boolean truthy `success` values and a NaN status are not covered.
- Mailgen's HTML and plain-text rendering, the nodemailer transport and its SMTP settings, the winston logger, Cloudinary, JWT verification, the auth controller, the database connection and the app bootstrap.
- Uploads.SizeLimitBoundary: the size limit is taken as inclusive (a file of exactly `fileSize` bytes is kept). The source only sets `fileSize`; where the boundary falls is decided by the multipart parser under multer and may differ between its versions.
- The general-purpose `upload` middleware (disk storage with a 1000000-byte field-size limit) is not used by the modelled handlers and is not modelled; only `uploadTaskAttachments` is.

## Findings

| source | as written | input that shows it | evidently intended | confidence | as-written member | corrected member |
|---|---|---|---|---|---|---|
| src/controllers/task.controller.js:410 | `addAttachments` reads `task.attachments` and `env.MAX_ATTACHMENTS`, but the handler declares only `existingTask` and no `env` | an existing task with no attachments and one uploaded file (lemma Tasks.AddAttachmentsReferenceError) | count `existingTask.attachments` against the configured limit | high, not executed | Tasks.AddAttachmentsAsWritten | Tasks.AddAttachments |
| src/controllers/project.controller.js:397-401 | `updateMemberRole` sets the role with `findOneAndUpdate` without `runValidators`, so the schema's role enumeration is not checked on update | an existing member updated to role "owner" (lemma Registry.UpdateMemberRoleBreaksRoles) | refuse roles outside the enumeration, as `addMemberToProject` does on creation | medium, not executed | Registry.UpdateMemberRole | Registry.UpdateMemberRoleChecked |
