/** The request rules of src/controllers/task.controller.js: the assignee checks and
    attachment list of createTask, the partial-update payloads of updateTask and
    updateSubTask, and the attachment limit of addAttachments. Database lookups are
    parameters: `assignee` is the user found by e-mail (None when none was),
    `members` the membership collection, and the sets and maps of ids the tasks and
    subtasks that exist. Uploading a file to cloud storage is the parameter
    `upload`, from a stored path to the returned URL (None when there was none). */
module Tasks {
  import opened Wrappers
  import opened MemberSchema
  import opened Uploads
  import Constants
  import Registry

  type TaskId = nat
  type SubTaskId = nat

  datatype Attachment = Attachment(url: Option<string>, mimetype: string, size: nat)

  datatype Task = Task(title: Option<string>, description: Option<string>, project: ProjectId,
                       assignedTo: UserId, assignedBy: UserId, attachments: seq<Attachment>)

  datatype TaskError =
    | AssignedUserNotFound
    | AssigneeNotMember
    | TaskNotFound
    | NoFieldsToUpdate
    | SubTaskUpdateFailed
    | NoAttachments
    | AttachmentLimitExceeded(remaining: int)
    | ReferenceError(name: string)
    | TypeError(property: string)

  /** The body of `Task.findByIdAndUpdate`: a field is present when it is `Some`;
      `description` may be present with the value `undefined` (`Some(None)`). */
  datatype TaskUpdate = TaskUpdate(title: Option<string>, description: Option<Option<string>>, assignedTo: Option<UserId>)

  datatype SubTaskUpdate = SubTaskUpdate(title: Option<string>, isCompleted: Option<bool>)

  /** The fields of a stored subtask that updateSubTask may change. */
  datatype SubTask = SubTask(title: string, isCompleted: bool)

  /** The assignee a request names must be a known user with a membership in the project. */
  function CheckAssignee(assignee: Option<UserId>, project: ProjectId, members: map<(ProjectId, UserId), string>): (r: Result<UserId, TaskError>)
    ensures r.Success? <==> assignee.Some? && (project, assignee.value) in members
    ensures r.Success? ==> r.value == assignee.value
    ensures assignee.None? ==> r == Failure(AssignedUserNotFound)
    ensures assignee.Some? && r.Failure? ==> r == Failure(AssigneeNotMember)
  {
    if assignee.None? then Failure(AssignedUserNotFound)
    else if (project, assignee.value) !in members then Failure(AssigneeNotMember)
    else Success(assignee.value)
  }

  function AttachmentOf(f: UploadedFile, upload: string -> Option<string>): Attachment {
    Attachment(upload(f.path), f.mimetype, f.size)
  }

  /** One attachment per uploaded file, in upload order. */
  function AttachmentsOf(files: seq<UploadedFile>, upload: string -> Option<string>): (r: seq<Attachment>)
    ensures |r| == |files|
    ensures forall i :: 0 <= i < |files| ==>
      r[i].mimetype == files[i].mimetype && r[i].size == files[i].size && r[i].url == upload(files[i].path)
  {
    seq(|files|, i requires 0 <= i < |files| => AttachmentOf(files[i], upload))
  }

  /** createTask: the assignee must exist and be a member of the project. The new
      task is assigned by the caller to the assignee, and its attachments come
      from the uploaded files (none when no file array is present). */
  function CreateTask(caller: UserId, project: ProjectId, title: Option<string>, description: Option<string>,
                      assignee: Option<UserId>, members: map<(ProjectId, UserId), string>,
                      files: Option<seq<UploadedFile>>, upload: string -> Option<string>): (r: Result<Task, TaskError>)
    ensures r.Success? <==> CheckAssignee(assignee, project, members).Success?
    ensures r.Failure? ==> r.error == CheckAssignee(assignee, project, members).error
    ensures r.Success? ==> r.value.assignedBy == caller && r.value.assignedTo == assignee.value
    ensures r.Success? ==> r.value.project == project && r.value.title == title && r.value.description == description
    ensures r.Success? && files.None? ==> r.value.attachments == []
    ensures r.Success? && files.Some? ==> r.value.attachments == AttachmentsOf(files.value, upload)
  {
    match CheckAssignee(assignee, project, members)
    case Failure(e) => Failure(e)
    case Success(to) =>
      var attachments := if files.Some? then AttachmentsOf(files.value, upload) else [];
      Success(Task(title, description, project, to, caller, attachments))
  }

  /** updateTask: the payload holds `title` iff one was given, `description` unless
      it is the empty string (so also when it is absent), and `assignedTo` iff an
      e-mail was given, in which case the user must exist and belong to the project.
      The task must exist. */
  function UpdateTask(title: Option<string>, description: Option<string>, email: Option<string>,
                      assignee: Option<UserId>, project: ProjectId, members: map<(ProjectId, UserId), string>,
                      task: TaskId, tasks: set<TaskId>): (r: Result<TaskUpdate, TaskError>)
    ensures r.Success? <==> (email.None? || CheckAssignee(assignee, project, members).Success?) && task in tasks
    ensures email.Some? && CheckAssignee(assignee, project, members).Failure? ==>
      r == Failure(CheckAssignee(assignee, project, members).error)
    ensures r.Failure? && (email.None? || CheckAssignee(assignee, project, members).Success?) ==> r.error == TaskNotFound
    ensures r.Success? ==> r.value.title == title
    ensures r.Success? ==> (r.value.description.Some? <==> description != Some(""))
    ensures r.Success? && r.value.description.Some? ==> r.value.description.value == description
    ensures r.Success? ==> (r.value.assignedTo.Some? <==> email.Some?)
    ensures r.Success? && email.Some? ==> r.value.assignedTo == assignee
  {
    var withTitle := TaskUpdate(title, None, None);
    var withDescription := if description != Some("") then withTitle.(description := Some(description)) else withTitle;
    var payload :- if email.None? then Success(withDescription)
                   else match CheckAssignee(assignee, project, members)
                        case Failure(e) => Failure(e)
                        case Success(u) => Success(withDescription.(assignedTo := Some(u)));
    if task !in tasks then Failure(TaskNotFound) else Success(payload)
  }

  /** updateSubTask: the payload holds exactly the given fields among `title` and
      `isCompleted`; a request with neither is refused, and so is an unknown subtask. */
  function UpdateSubTask(title: Option<string>, isCompleted: Option<bool>, subTask: SubTaskId, subTasks: set<SubTaskId>): (r: Result<SubTaskUpdate, TaskError>)
    ensures r.Success? <==> (title.Some? || isCompleted.Some?) && subTask in subTasks
    ensures title.None? && isCompleted.None? ==> r == Failure(NoFieldsToUpdate)
    ensures (title.Some? || isCompleted.Some?) && subTask !in subTasks ==> r == Failure(SubTaskUpdateFailed)
    ensures r.Success? ==> r.value.title == title && r.value.isCompleted == isCompleted
  {
    var payload := SubTaskUpdate(title, isCompleted);
    if payload == SubTaskUpdate(None, None) then Failure(NoFieldsToUpdate)
    else if subTask !in subTasks then Failure(SubTaskUpdateFailed)
    else Success(payload)
  }

  /** What `findByIdAndUpdate` makes of a stored subtask: each field the payload
      holds is set to its value, and each field it lacks keeps its stored value. */
  function ApplySubTaskUpdate(s: SubTask, u: SubTaskUpdate): (r: SubTask)
    ensures u.title.Some? ==> r.title == u.title.value
    ensures u.title.None? ==> r.title == s.title
    ensures u.isCompleted.Some? ==> r.isCompleted == u.isCompleted.value
    ensures u.isCompleted.None? ==> r.isCompleted == s.isCompleted
  {
    var withTitle := if u.title.Some? then s.(title := u.title.value) else s;
    if u.isCompleted.Some? then withTitle.(isCompleted := u.isCompleted.value) else withTitle
  }

  /** An accepted updateSubTask sets exactly the fields the request gave and leaves
      the other one as stored; sending the same request again changes nothing more. */
  lemma UpdateSubTaskApplies(s: SubTask, title: Option<string>, isCompleted: Option<bool>, subTask: SubTaskId, subTasks: set<SubTaskId>)
    requires UpdateSubTask(title, isCompleted, subTask, subTasks).Success?
    ensures var u := UpdateSubTask(title, isCompleted, subTask, subTasks).value;
      && ApplySubTaskUpdate(s, u).title == (if title.Some? then title.value else s.title)
      && ApplySubTaskUpdate(s, u).isCompleted == (if isCompleted.Some? then isCompleted.value else s.isCompleted)
      && ApplySubTaskUpdate(ApplySubTaskUpdate(s, u), u) == ApplySubTaskUpdate(s, u)
  {
  }

  /** updateTask follows the membership collection: once a user is added to the
      project, a request naming them assigns the task to them; once their
      membership is deleted, the same request is refused as naming a non-member. */
  lemma UpdateTaskFollowsMembership(store: Registry.Store, project: ProjectId, user: UserId, role: string,
                                    title: Option<string>, description: Option<string>, email: string,
                                    task: TaskId, tasks: set<TaskId>)
    requires task in tasks
    ensures var added := Registry.AddMember(store, project, Some(role), Some(user));
      added.Success? ==>
        UpdateTask(title, description, Some(email), Some(user), project, added.value.members, task, tasks).Success?
        && UpdateTask(title, description, Some(email), Some(user), project, added.value.members, task, tasks).value.assignedTo == Some(user)
    ensures var deleted := Registry.DeleteMember(store, project, Some(user));
      deleted.Success? ==>
        UpdateTask(title, description, Some(email), Some(user), project, deleted.value.members, task, tasks) == Failure(AssigneeNotMember)
  {
  }

  /** True when no file array came with the request or it is empty. */
  predicate NoFiles(files: Option<seq<UploadedFile>>) {
    files.None? || |files.value| == 0
  }

  /** addAttachments as written: after the existence and empty-upload checks it
      reads `task.attachments`, and no `task` is declared in that handler. */
  function AddAttachmentsAsWritten(tasks: map<TaskId, Task>, task: TaskId, files: Option<seq<UploadedFile>>): (r: Result<map<TaskId, Task>, TaskError>)
    ensures task !in tasks ==> r == Failure(TaskNotFound)
    ensures task in tasks && NoFiles(files) ==> r == Failure(NoAttachments)
    ensures task in tasks && !NoFiles(files) ==> r == Failure(ReferenceError("task"))
  {
    if task !in tasks then Failure(TaskNotFound)
    else if NoFiles(files) then Failure(NoAttachments)
    else Failure(ReferenceError("task"))
  }

  /** Every file of the batch came back from the cloud upload with a result. */
  predicate AllUploaded(files: seq<UploadedFile>, upload: string -> Option<string>) {
    forall i :: 0 <= i < |files| ==> upload(files[i].path).Some?
  }

  /** addAttachments reading the task it looked up: the task must exist and the
      upload be non-empty; when the existing and new attachments together exceed
      `maxAttachments` the request is refused with the number still allowed; an
      upload that came back without a result fails the request when its
      `secure_url` is read; otherwise the new attachments, each with its URL,
      follow the existing ones and nothing else in the task, or in any other task,
      changes. */
  function AddAttachments(tasks: map<TaskId, Task>, task: TaskId, files: Option<seq<UploadedFile>>,
                          maxAttachments: int, upload: string -> Option<string>): (r: Result<map<TaskId, Task>, TaskError>)
    ensures r.Success? <==> task in tasks && !NoFiles(files) && |tasks[task].attachments| + |files.value| <= maxAttachments
                            && AllUploaded(files.value, upload)
    ensures task !in tasks ==> r == Failure(TaskNotFound)
    ensures task in tasks && NoFiles(files) ==> r == Failure(NoAttachments)
    ensures task in tasks && !NoFiles(files) && |tasks[task].attachments| + |files.value| > maxAttachments ==>
      r == Failure(AttachmentLimitExceeded(maxAttachments - |tasks[task].attachments|))
    ensures (task in tasks && !NoFiles(files) && |tasks[task].attachments| + |files.value| <= maxAttachments
             && !AllUploaded(files.value, upload)) ==> r == Failure(TypeError("secure_url"))
    ensures r.Success? ==> r.value.Keys == tasks.Keys
    ensures r.Success? ==> forall t :: t in tasks && t != task ==> r.value[t] == tasks[t]
    ensures r.Success? ==> r.value[task] == tasks[task].(attachments := r.value[task].attachments)
    ensures r.Success? ==> r.value[task].attachments == tasks[task].attachments + AttachmentsOf(files.value, upload)
    ensures r.Success? ==> |r.value[task].attachments| <= maxAttachments
    ensures r.Success? ==> forall i :: |tasks[task].attachments| <= i < |r.value[task].attachments| ==>
      r.value[task].attachments[i].url.Some?
  {
    if task !in tasks then Failure(TaskNotFound)
    else if NoFiles(files) then Failure(NoAttachments)
    else
      var existing := tasks[task].attachments;
      if |existing| + |files.value| > maxAttachments then
        Failure(AttachmentLimitExceeded(maxAttachments - |existing|))
      else if !AllUploaded(files.value, upload) then
        Failure(TypeError("secure_url"))
      else
        Success(tasks[task := tasks[task].(attachments := existing + AttachmentsOf(files.value, upload))])
  }

  /** The handler as written fails on every request that passes its first two
      checks, where the intended handler accepts one within the limit: a task with
      no attachments, one new file that uploads, a limit of five. */
  lemma AddAttachmentsReferenceError(t: Task, f: UploadedFile, upload: string -> Option<string>)
    requires t.attachments == []
    requires upload(f.path).Some?
    ensures AddAttachmentsAsWritten(map[1 := t], 1, Some([f])) == Failure(ReferenceError("task"))
    ensures AddAttachments(map[1 := t], 1, Some([f]), 5, upload).Success?
  {
  }

  /** Attachments built from two batches are those of the first batch followed by
      those of the second, so adding files later keeps upload order. */
  lemma AttachmentsOfAppend(a: seq<UploadedFile>, b: seq<UploadedFile>, upload: string -> Option<string>)
    ensures AttachmentsOf(a + b, upload) == AttachmentsOf(a, upload) + AttachmentsOf(b, upload)
  {
  }

  /** Files that passed the upload middleware give a task whose attachments all
      have an allowed MIME type and an allowed size, and at most five of them. */
  lemma UploadedAttachmentsAllowed(caller: UserId, project: ProjectId, title: Option<string>, description: Option<string>,
                                   assignee: Option<UserId>, members: map<(ProjectId, UserId), string>,
                                   incoming: seq<IncomingFile>, suffixes: seq<string>, upload: string -> Option<string>)
    requires |suffixes| == |incoming|
    requires AcceptTaskUploads(incoming, suffixes).Success?
    requires CheckAssignee(assignee, project, members).Success?
    ensures var t := CreateTask(caller, project, title, description, assignee, members,
                                Some(AcceptTaskUploads(incoming, suffixes).value), upload).value;
      |t.attachments| <= MaxTaskFiles
      && forall i :: 0 <= i < |t.attachments| ==>
           t.attachments[i].mimetype in Constants.AllowedMimeTypes() && t.attachments[i].size <= MaxFileSize
  {
  }
}
