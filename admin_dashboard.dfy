/** The logic of the admin page for activity posts: choosing an image, naming
    its storage object, submitting a new activity (upload, then insert), and
    deleting one (object removal from its public URL, then row removal).

    Every call into the storage and database service is represented by the
    request the page issues (`Request`) and by the reply it receives, which the
    handlers take as parameters. Each handler runs as one step; the requests it
    issues are returned in the order the page issues them. */
module AdminDashboard {
  import opened Outcomes
  import opened JsString

  /** The storage bucket, the database table and the first path segment of
      every uploaded object are all named `activities`. */
  const Bucket: string := "activities"

  /** The `/`-separated segments of a public object URL's path before the
      bucket name, `/storage/v1/object/public/<bucket>/<key>`; the first is the
      empty segment before the leading `/`. */
  const PublicPathSegments: seq<string> := ["", "storage", "v1", "object", "public"]

  /** A file chosen in the browser: its name and its declared media type. */
  datatype File = File(name: string, mime: string)

  /** A row of the `activities` table as the page lists it. */
  datatype Activity = Activity(
    id: string, title: string, description: Option<string>, imageUrl: string, createdAt: string)

  /** The row the page inserts for a new activity. */
  datatype NewActivity = NewActivity(
    title: string, description: Option<string>, imageUrl: string, uploadedBy: Option<string>)

  /** A call into the storage or database service. */
  datatype Request =
    | UploadObject(bucket: string, path: string, file: File)
    | InsertActivity(table: string, row: NewActivity)
    | SelectActivities(table: string)
    | RemoveObjects(bucket: string, paths: seq<string>)
    | DeleteActivity(table: string, id: string)

  /** The notices the page shows; a failed call's notice carries the error's
      message. */
  datatype Notice =
    | TitleRequired
    | ChooseImage
    | LoadFailed
    | ActivityAdded
    | ActivityDeleted
    | AddFailed(message: string)
    | DeleteFailed(message: string)

  /** The notices that report a refusal or a failure. */
  predicate IsFailure(n: Notice) {
    !(n.ActivityAdded? || n.ActivityDeleted?)
  }

  /** A toast as the user sees it. */
  datatype Toast = Toast(title: string, description: string, destructive: bool)

  /** `error.message || fallback` */
  function ShownMessage(message: string, fallback: string): (shown: string)
    ensures shown != "" <== fallback != ""
    ensures message != "" ==> shown == message
    ensures message == "" ==> shown == fallback
  {
    if message == "" then fallback else message
  }

  /** The toast each notice is shown as: failures are destructive and titled
      "Greška", successes titled "Uspješno"; a failed call shows its error's
      message, or a fixed text when that is empty. */
  function ToastOf(n: Notice): (t: Toast)
    ensures t.destructive <==> IsFailure(n)
    ensures t.title == (if IsFailure(n) then "Greška" else "Uspješno")
    ensures t.description != ""
    ensures n.AddFailed? && n.message != "" ==> t.description == n.message
    ensures n.DeleteFailed? && n.message != "" ==> t.description == n.message
  {
    match n
    case TitleRequired => Toast("Greška", "Naslov je obavezan.", true)
    case ChooseImage => Toast("Greška", "Molimo odaberite sliku.", true)
    case LoadFailed => Toast("Greška", "Nije moguće učitati aktivnosti.", true)
    case ActivityAdded => Toast("Uspješno", "Aktivnost je dodana.", false)
    case ActivityDeleted => Toast("Uspješno", "Aktivnost je obrisana.", false)
    case AddFailed(m) => Toast("Greška", ShownMessage(m, "Nije moguće dodati aktivnost."), true)
    case DeleteFailed(m) => Toast("Greška", ShownMessage(m, "Nije moguće obrisati aktivnost."), true)
  }

  /** `s || null` for a string. */
  function NullIfEmpty(s: string): (r: Option<string>)
    ensures r == None <==> s == ""
    ensures r.Some? ==> r.value == s
  {
    if s == "" then None else Some(s)
  }

  /** Only files whose media type starts with `image/` are accepted. */
  predicate IsImage(f: File) {
    StartsWith(f.mime, "image/")
  }

  // ---------------------------------------------------------------------------
  // naming the uploaded object

  /** `name.split('.').pop()`: the part after the last `.`, or the whole name
      when it has none. */
  function FileExtension(name: string): (ext: string)
    ensures '.' !in ext
    ensures |ext| <= |name| && name[|name| - |ext|..] == ext
    ensures '.' !in name ==> ext == name
    ensures '.' in name ==> |ext| < |name| && name[|name| - |ext| - 1] == '.'
  {
    LastPieceIsSuffix(name, '.');
    Last(Split(name, '.'))
  }

  /** `Math.random().toString(36).substring(2, 8)` given the rendered random
      number: at most six characters, those after the leading `0.`. */
  function RandomToken(randomText: string): (token: string)
    ensures |token| <= 6
    ensures |randomText| <= 2 ==> token == ""
    ensures |randomText| >= 8 ==> token == randomText[2..8]
    ensures 2 <= |randomText| <= 8 ==> token == randomText[2..]
  {
    Substring(randomText, 2, 8)
  }

  /** `${timestamp}-${randomStr}.${extension}` */
  function GenerateUniqueFileName(originalName: string, timestamp: nat, randomText: string): string {
    NatToDecimal(timestamp) + "-" + RandomToken(randomText) + "." + FileExtension(originalName)
  }

  /** The part of a generated name before its first `-` is the timestamp's
      digits (which `DecimalRoundTrip` reads back), and the extension of the
      new name is the extension of the original one. */
  lemma GeneratedNameParts(originalName: string, timestamp: nat, randomText: string)
    ensures Split(GenerateUniqueFileName(originalName, timestamp, randomText), '-')[0]
         == NatToDecimal(timestamp)
    ensures FileExtension(GenerateUniqueFileName(originalName, timestamp, randomText))
         == FileExtension(originalName)
  {
    NameShape(NatToDecimal(timestamp), RandomToken(randomText), FileExtension(originalName));
  }

  /** A name `digits-token.ext` splits at its first `-` after the digits and
      at its last `.` before the extension. */
  lemma NameShape(digits: string, token: string, ext: string)
    requires forall i :: 0 <= i < |digits| ==> IsDigit(digits[i])
    requires '.' !in ext
    ensures Split(digits + "-" + token + "." + ext, '-')[0] == digits
    ensures Last(Split(digits + "-" + token + "." + ext, '.')) == ext
  {
    var rest := token + "." + ext;
    var front := digits + "-" + token;
    assert digits + "-" + token + "." + ext == digits + ['-'] + rest;
    assert digits + "-" + token + "." + ext == front + ['.'] + ext;
    assert '-' !in digits;
    SplitAround(digits, rest, '-');
    SplitWithoutSeparator(digits, '-');
    SplitAround(front, ext, '.');
    SplitWithoutSeparator(ext, '.');
  }

  /** `activities/${fileName}`: the object key the page uploads to. */
  function UploadPath(fileName: string): string {
    Bucket + "/" + fileName
  }

  // ---------------------------------------------------------------------------
  // recovering the object key from a public URL

  /** The path segments after the first segment equal to `segment`, joined
      with `/`; `None` when there is no such segment. */
  function KeyAfterSegment(pathname: string, segment: string): (key: Option<string>)
    ensures key == None <==> segment !in Split(pathname, '/')
  {
    var parts := Split(pathname, '/');
    var index := FindIndex(parts, segment);
    if index == -1 then None else Some(Join(parts[index + 1..], '/'))
  }

  /** The key the delete handler recovers from a public URL's path: what
      follows the first `activities` segment. */
  function ExtractStorageKey(pathname: string): (key: Option<string>)
    ensures key == None <==> Bucket !in Split(pathname, '/')
  {
    KeyAfterSegment(pathname, Bucket)
  }

  /** Key recovery inverts the URL layout: when the prefix has no segment
      equal to `segment`, whatever follows `/segment/` comes back exactly. */
  lemma KeyAfterSegmentInverts(prefix: string, segment: string, key: string)
    requires '/' !in segment
    requires segment !in Split(prefix, '/')
    ensures KeyAfterSegment(prefix + "/" + segment + "/" + key, segment) == Some(key)
  {
    var tail := segment + "/" + key;
    assert prefix + "/" + segment + "/" + key == prefix + ['/'] + tail;
    assert tail == segment + ['/'] + key;
    SplitAround(prefix, tail, '/');
    SplitAround(segment, key, '/');
    SplitWithoutSeparator(segment, '/');
    var pre := Split(prefix, '/');
    var parts := pre + [segment] + Split(key, '/');
    assert Split(prefix + "/" + segment + "/" + key, '/') == parts;
    var i := FindIndex(parts, segment);
    assert parts[|pre|] == segment;
    assert i == |pre|;
    assert parts[i + 1..] == Split(key, '/');
    JoinSplit(key, '/');
  }

  /** Whatever follows `/activities/` after a prefix without an `activities`
      segment is exactly the key recovered. */
  lemma ExtractAfterBucket(prefix: string, key: string)
    requires Bucket !in Split(prefix, '/')
    ensures ExtractStorageKey(prefix + "/" + Bucket + "/" + key) == Some(key)
  {
    KeyAfterSegmentInverts(prefix, Bucket, key);
  }

  /** The page deletes exactly the object it uploaded: the path of the public
      URL of `activities/<fileName>` in bucket `activities` yields that key
      back. */
  lemma UploadedObjectIsFound(fileName: string)
    ensures ExtractStorageKey(Join(PublicPathSegments, '/') + "/" + Bucket + "/" + UploadPath(fileName))
         == Some(UploadPath(fileName))
  {
    SplitJoin(PublicPathSegments, '/');
    ExtractAfterBucket(Join(PublicPathSegments, '/'), UploadPath(fileName));
  }

  // ---------------------------------------------------------------------------
  // removing a deleted activity from the list

  /** `list.filter(a => a.id !== id)` */
  function RemoveById(list: seq<Activity>, id: string): (kept: seq<Activity>)
    ensures forall a :: a in kept <==> a in list && a.id != id
    ensures |kept| <= |list|
  {
    if list == [] then []
    else if list[0].id == id then RemoveById(list[1..], id)
    else [list[0]] + RemoveById(list[1..], id)
  }

  /** Filtering distributes over concatenation, so the kept items stay in
      their original order. */
  lemma {:induction false} RemoveByIdConcat(a: seq<Activity>, b: seq<Activity>, id: string)
    ensures RemoveById(a + b, id) == RemoveById(a, id) + RemoveById(b, id)
    decreases |a|
  {
    if a != [] {
      assert (a + b)[0] == a[0];
      assert (a + b)[1..] == a[1..] + b;
      RemoveByIdConcat(a[1..], b, id);
    } else {
      assert a + b == b;
    }
  }

  /** A list without the id is left as it is. */
  lemma {:induction false} RemoveByIdAbsent(list: seq<Activity>, id: string)
    requires forall k :: 0 <= k < |list| ==> list[k].id != id
    ensures RemoveById(list, id) == list
    decreases |list|
  {
    if list != [] {
      RemoveByIdAbsent(list[1..], id);
    }
  }

  /** Filtering twice is filtering once. */
  lemma RemoveByIdIdempotent(list: seq<Activity>, id: string)
    ensures RemoveById(RemoveById(list, id), id) == RemoveById(list, id)
  {
    var kept := RemoveById(list, id);
    forall k | 0 <= k < |kept| ensures kept[k].id != id {
      assert kept[k] in kept;
    }
    RemoveByIdAbsent(kept, id);
  }

  // ---------------------------------------------------------------------------
  // submitting the form

  /** What one submission does: the calls it issues in order, the notice it
      shows, and whether it clears the form. */
  datatype Submission = Submission(issued: seq<Request>, notice: Notice, reset: bool)

  /** The object key a submission uploads `file` to. */
  function ObjectPath(file: File, timestamp: nat, randomText: string): string {
    UploadPath(GenerateUniqueFileName(file.name, timestamp, randomText))
  }

  /** The object key for the selection, if there is one. */
  function SubmittedPath(selected: Option<File>, timestamp: nat, randomText: string): string {
    if selected.Some? then ObjectPath(selected.value, timestamp, randomText) else ""
  }

  /** A submission of the form whose title and description trim to `title`
      and `description`, with `selected` as the chosen file. `objectPath` is the key the file is uploaded to (`ObjectPath`,
      from `Date.now()` and `Math.random().toString(36)`), `publicUrlOf`
      stands for the storage client's `getPublicUrl`, `userId` for the
      signed-in user's id, `upload` and `insert` for the replies to the two
      calls.

      An empty title is refused first and a missing file second, with no call
      issued. Otherwise the selected file is uploaded, the row is inserted
      only after the upload passed and refers to the public URL of the very
      key that was uploaded, and only a passed insert clears the form and
      asks for the list again; every failure is shown with a destructive
      notice. */
  function Submit(
    title: string, description: string, selected: Option<File>,
    objectPath: string, publicUrlOf: string -> string,
    userId: Option<string>, upload: Outcome, insert: Outcome): (s: Submission)
    ensures s.issued == [] <==> title == "" || selected == None
    ensures title == "" ==> s.notice == TitleRequired
    ensures title != "" && selected == None ==> s.notice == ChooseImage
    ensures s.reset <==> !IsFailure(s.notice)
    ensures s.reset ==> s.notice == ActivityAdded
    ensures s.reset <==> s.issued != [] && upload.Pass? && insert.Pass?
    ensures |s.issued| <= 3
    ensures |s.issued| >= 1 ==>
      selected.Some? &&
      s.issued[0] == UploadObject(Bucket, objectPath, selected.value)
    ensures |s.issued| >= 2 <==> s.issued != [] && upload.Pass?
    ensures |s.issued| >= 2 ==>
      s.issued[1] == InsertActivity(Bucket, NewActivity(
        title, NullIfEmpty(description), publicUrlOf(s.issued[0].path), userId))
    ensures |s.issued| == 3 <==> s.reset
    ensures |s.issued| == 3 ==> s.issued[2] == SelectActivities(Bucket)
    ensures upload.Fail? && s.issued != [] ==> s.notice == AddFailed(upload.message)
    ensures upload.Pass? && insert.Fail? && s.issued != [] ==> s.notice == AddFailed(insert.message)
  {
    if title == "" then Submission([], TitleRequired, false)
    else if selected == None then Submission([], ChooseImage, false)
    else
      var up := UploadObject(Bucket, objectPath, selected.value);
      if upload.Fail? then Submission([up], AddFailed(upload.message), false)
      else
        var row := NewActivity(title, NullIfEmpty(description), publicUrlOf(objectPath), userId);
        if insert.Fail? then Submission([up, InsertActivity(Bucket, row)], AddFailed(insert.message), false)
        else Submission([up, InsertActivity(Bucket, row), SelectActivities(Bucket)], ActivityAdded, true)
  }

  // ---------------------------------------------------------------------------
  // the page's state

  /** The state the page keeps: the listed activities, the form, and the two
      busy markers. */
  class Dashboard {
    var activities: seq<Activity>
    var loadingActivities: bool
    var uploading: bool
    var deleting: Option<string>
    var title: string
    var description: string
    var selectedFile: Option<File>
    var previewUrl: Option<string>

    /** A file is selected exactly when it has a preview, and only images are
        ever selected. */
    predicate Valid()
      reads this
    {
      (selectedFile.Some? <==> previewUrl.Some?) &&
      (selectedFile.Some? ==> IsImage(selectedFile.value))
    }

    constructor ()
      ensures Valid()
      ensures activities == [] && loadingActivities && !uploading && deleting == None
      ensures title == "" && description == "" && selectedFile == None && previewUrl == None
    {
      activities, loadingActivities, uploading, deleting := [], true, false, None;
      title, description, selectedFile, previewUrl := "", "", None, None;
    }

    /** The title input's change handler. */
    method SetTitle(value: string)
      modifies this`title
      ensures title == value
    {
      title := value;
    }

    /** The description input's change handler. */
    method SetDescription(value: string)
      modifies this`description
      ensures description == value
    {
      description := value;
    }

    /** The reply to the list query: the rows (`null` counts as none) replace
        the list; an error keeps the list and shows a notice. Loading ends
        either way. */
    method ReceiveActivities(reply: Result<Option<seq<Activity>>>) returns (notice: Option<Notice>)
      modifies this`activities, this`loadingActivities
      ensures !loadingActivities
      ensures reply.Ok? ==>
        notice == None && activities == (if reply.value.Some? then reply.value.value else [])
      ensures reply.Err? ==> notice == Some(LoadFailed) && activities == old(activities)
    {
      if reply.Err? {
        notice := Some(LoadFailed);
      } else {
        notice := None;
        activities := if reply.value.Some? then reply.value.value else [];
      }
      loadingActivities := false;
    }

    /** A non-image is refused and leaves the selection and preview as they
        were; an image becomes the selection, with `objectUrl` (the result
        of `URL.createObjectURL`) as its preview. */
    method HandleFileSelect(file: File, objectUrl: string) returns (notice: Option<Notice>)
      requires Valid()
      modifies this`selectedFile, this`previewUrl
      ensures Valid()
      ensures !IsImage(file) ==>
        notice == Some(ChooseImage) && selectedFile == old(selectedFile) && previewUrl == old(previewUrl)
      ensures IsImage(file) ==>
        notice == None && selectedFile == Some(file) && previewUrl == Some(objectUrl)
    {
      if !IsImage(file) {
        notice := Some(ChooseImage);
        return;
      }
      notice := None;
      selectedFile := Some(file);
      previewUrl := Some(objectUrl);
    }

    /** The file input's change handler: only the first chosen file is used,
        and choosing none does nothing. */
    method HandleFileChange(files: seq<File>, objectUrl: string) returns (notice: Option<Notice>)
      requires Valid()
      modifies this`selectedFile, this`previewUrl
      ensures Valid()
      ensures files == [] || !IsImage(files[0]) ==>
        selectedFile == old(selectedFile) && previewUrl == old(previewUrl)
      ensures files != [] && IsImage(files[0]) ==>
        selectedFile == Some(files[0]) && previewUrl == Some(objectUrl)
      ensures notice == (if files != [] && !IsImage(files[0]) then Some(ChooseImage) else None)
    {
      notice := None;
      if files != [] {
        notice := HandleFileSelect(files[0], objectUrl);
      }
    }

    /** The drop zone's handler: only the first dropped file is used, and
        dropping none does nothing. */
    method HandleDrop(files: seq<File>, objectUrl: string) returns (notice: Option<Notice>)
      requires Valid()
      modifies this`selectedFile, this`previewUrl
      ensures Valid()
      ensures files == [] || !IsImage(files[0]) ==>
        selectedFile == old(selectedFile) && previewUrl == old(previewUrl)
      ensures files != [] && IsImage(files[0]) ==>
        selectedFile == Some(files[0]) && previewUrl == Some(objectUrl)
      ensures notice == (if files != [] && !IsImage(files[0]) then Some(ChooseImage) else None)
    {
      notice := None;
      if |files| > 0 {
        notice := HandleFileSelect(files[0], objectUrl);
      }
    }

    /** The form's submit handler, on the form as it stands when it is
        submitted: `Submit` on the trimmed title and description says which
        calls it issues, which notice it shows and whether it resets the
        form. The page is not uploading at any exit after a call was issued. */
    method HandleSubmit(
      timestamp: nat, randomText: string, publicUrlOf: string -> string,
      userId: Option<string>, upload: Outcome, insert: Outcome)
      returns (issued: seq<Request>, notice: Notice)
      requires Valid()
      modifies this
      ensures Valid()
      ensures activities == old(activities) && deleting == old(deleting)
      ensures loadingActivities == old(loadingActivities)
      ensures
        var s := Submit(Trim(old(title)), Trim(old(description)), old(selectedFile),
                        SubmittedPath(old(selectedFile), timestamp, randomText), publicUrlOf,
                        userId, upload, insert);
        issued == s.issued && notice == s.notice &&
        (if issued == [] then uploading == old(uploading) else !uploading) &&
        if s.reset
        then title == "" && description == "" && selectedFile == None && previewUrl == None
        else title == old(title) && description == old(description) &&
             selectedFile == old(selectedFile) && previewUrl == old(previewUrl)
    {
      var trimmedTitle := Trim(title);
      if trimmedTitle == "" {
        notice, issued := TitleRequired, [];
        return;
      }
      if selectedFile == None {
        notice, issued := ChooseImage, [];
        return;
      }
      var file := selectedFile.value;
      issued, notice := Publish(file, trimmedTitle, Trim(description),
                                ObjectPath(file, timestamp, randomText), publicUrlOf, userId, upload, insert);
    }

    /** Uploading the selected file under `path`, then inserting the row with
        `trimmedTitle` and `trimmedDescription`, then resetting the form. */
    method Publish(
      file: File, trimmedTitle: string, trimmedDescription: string, path: string,
      publicUrlOf: string -> string, userId: Option<string>, upload: Outcome, insert: Outcome)
      returns (issued: seq<Request>, notice: Notice)
      requires Valid() && selectedFile == Some(file) && trimmedTitle != ""
      modifies this
      ensures Valid()
      ensures activities == old(activities) && deleting == old(deleting)
      ensures loadingActivities == old(loadingActivities)
      ensures
        var s := Submit(trimmedTitle, trimmedDescription, Some(file), path, publicUrlOf, userId, upload, insert);
        issued == s.issued && notice == s.notice && !uploading &&
        if s.reset
        then title == "" && description == "" && selectedFile == None && previewUrl == None
        else title == old(title) && description == old(description) &&
             selectedFile == old(selectedFile) && previewUrl == old(previewUrl)
    {
      uploading := true;
      issued := [UploadObject(Bucket, path, file)];
      if upload.Fail? {
        notice := AddFailed(upload.message);
        uploading := false;
        return;
      }
      var publicUrl := publicUrlOf(path);
      var row := NewActivity(trimmedTitle, NullIfEmpty(trimmedDescription), publicUrl, userId);
      issued := issued + [InsertActivity(Bucket, row)];
      if insert.Fail? {
        notice := AddFailed(insert.message);
        uploading := false;
        return;
      }
      notice := ActivityAdded;
      title, description, selectedFile, previewUrl := "", "", None, None;
      issued := issued + [SelectActivities(Bucket)];
      uploading := false;
    }

    /** The delete button's handler. `confirmed` is the answer to the
        confirmation dialog, `pathname` the path of `new URL(imageUrl)` or
        the message it threw, `removal` whether the storage removal resolved
        (its `{ error }` reply is not looked at) or rejected with a message,
        `reply` the database's answer to the delete.

        A declined confirmation does nothing. A URL that does not parse ends
        the handler before any call. Otherwise the object is removed when a
        key can be recovered; a rejected removal ends the handler before the
        row delete. The row delete is issued in every other case, and only its
        success takes the activity out of the list, keeping the others in
        order. The page is not deleting at any exit after confirmation. */
    method HandleDelete(activity: Activity, confirmed: bool, pathname: Result<string>,
                        removal: Outcome, reply: Outcome)
      returns (issued: seq<Request>, notice: Option<Notice>)
      requires Valid()
      modifies this`activities, this`deleting
      ensures Valid()
      ensures !confirmed ==>
        issued == [] && notice == None && activities == old(activities) && deleting == old(deleting)
      ensures confirmed ==> deleting == None
      ensures confirmed && pathname.Err? ==>
        issued == [] && activities == old(activities) && notice == Some(DeleteFailed(pathname.message))
      ensures confirmed && pathname.Ok? ==>
        var key := ExtractStorageKey(pathname.value);
        var removeCalls := match key
                           case None => []
                           case Some(k) => [RemoveObjects(Bucket, [k])];
        if key.Some? && removal.Fail?
        then issued == removeCalls && activities == old(activities) &&
             notice == Some(DeleteFailed(removal.message))
        else issued == removeCalls + [DeleteActivity(Bucket, activity.id)] &&
             if reply.Pass?
             then activities == RemoveById(old(activities), activity.id) && notice == Some(ActivityDeleted)
             else activities == old(activities) && notice == Some(DeleteFailed(reply.message))
    {
      issued := [];
      if !confirmed {
        notice := None;
        return;
      }
      deleting := Some(activity.id);
      if pathname.Err? {
        notice := Some(DeleteFailed(pathname.message));
        deleting := None;
        return;
      }
      var key := ExtractStorageKey(pathname.value);
      if key.Some? {
        issued := issued + [RemoveObjects(Bucket, [key.value])];
        if removal.Fail? {
          notice := Some(DeleteFailed(removal.message));
          deleting := None;
          return;
        }
      }
      issued := issued + [DeleteActivity(Bucket, activity.id)];
      if reply.Fail? {
        notice := Some(DeleteFailed(reply.message));
      } else {
        notice := Some(ActivityDeleted);
        activities := RemoveById(activities, activity.id);
      }
      deleting := None;
    }
  }
}
