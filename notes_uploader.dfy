/** The lecture-notes upload dialog of `components/notes/NotesUploader.jsx`: its form state,
    the validation of a submission and the record it hands to the notes service. */
module NotesUploading {
  import opened Util
  import opened Text

  const TitleRequired := "Please enter a title for your notes"
  const ContentRequired := "Please enter or upload some content"
  const TextFileRequired := "Please upload a text file (.txt)"
  const SaveFailed := "Failed to save notes"

  /** The `notesData` object passed to `saveLectureNotes`. */
  datatype NotesData = NotesData(
    title: string,
    subject: string,
    content: string,
    userId: string,
    uploadedAt: int,
    wordCount: nat,
    characterCount: nat)

  /** The two validation steps of `handleSubmit`, title first: `None` when the submission may
      go ahead. */
  function SubmitError(title: string, content: string): (e: Option<string>)
    ensures e.None? <==> !IsBlank(title) && !IsBlank(content)
    ensures IsBlank(title) ==> e == Some(TitleRequired)
    ensures !IsBlank(title) && IsBlank(content) ==> e == Some(ContentRequired)
  {
    if Trim(title) == "" then Some(TitleRequired)
    else if Trim(content) == "" then Some(ContentRequired)
    else None
  }

  /** The record built from the form: trimmed title, subject (or `'General'`) and content;
      `content.trim().split(/\s+/).length` words and `content.trim().length` characters. */
  function BuildNotesData(title: string, subject: string, content: string, userId: string, now: int): NotesData {
    var body := Trim(content);
    NotesData(
      Trim(title),
      if Trim(subject) != "" then Trim(subject) else "General",
      body,
      userId,
      now,
      |SplitWhitespace(body)|,
      |body|)
  }

  /** The saved title and content are already trimmed: trimming them again changes nothing. */
  lemma NotesDataTrimmed(title: string, subject: string, content: string, userId: string, now: int)
    ensures var n := BuildNotesData(title, subject, content, userId, now);
      Trim(n.title) == n.title && Trim(n.content) == n.content && n.userId == userId && n.uploadedAt == now
  {
    TrimIdempotent(title);
    TrimIdempotent(content);
  }

  /** The subject falls back to `'General'` exactly when the one typed is blank, and is
      otherwise the typed subject, trimmed. */
  lemma NotesDataSubject(title: string, subject: string, content: string, userId: string, now: int)
    ensures var n := BuildNotesData(title, subject, content, userId, now);
      (IsBlank(subject) ==> n.subject == "General") &&
      (!IsBlank(subject) ==> n.subject == Trim(subject) && Trim(n.subject) == n.subject)
  {
    TrimIdempotent(subject);
  }

  /** For content that passed validation, `characterCount` is the length of the saved content
      and `wordCount` is its number of words (characters starting a run of non-whitespace):
      non-empty pieces free of whitespace which, put together, give back every
      non-whitespace character of it in order. */
  lemma NotesDataCounts(title: string, subject: string, content: string, userId: string, now: int)
    requires SubmitError(title, content).None?
    ensures var n := BuildNotesData(title, subject, content, userId, now);
      n.characterCount == |n.content| <= |content| &&
      n.wordCount == WordCount(n.content) >= 1 &&
      exists words: seq<string> ::
        |words| == n.wordCount &&
        (forall i | 0 <= i < |words| :: words[i] != [] && NoWhitespace(words[i])) &&
        Concat(words) == RemoveWhitespace(n.content)
  {
    var body := Trim(content);
    SplitWhitespaceWords(body);
    SplitWhitespaceKeepsText(body);
    SplitWhitespaceCountsWords(body);
    var words := SplitWhitespace(body);
    assert |words| == BuildNotesData(title, subject, content, userId, now).wordCount;
  }

  /** A file picked in the dialog: its MIME type and the text the reader loads from it. */
  datatype ChosenFile = ChosenFile(mimeType: string, text: string)

  class NotesUploader {
    var title: string
    var subject: string
    var content: string
    var isUploading: bool
    var error: string
    /** Every record handed to `saveLectureNotes`, oldest first. */
    var saveRequests: seq<NotesData>
    /** Whether `onSuccess` and `onClose` have been called after a successful save. */
    var closed: bool

    constructor ()
      ensures title == "" && subject == "" && content == "" && error == ""
      ensures !isUploading && saveRequests == [] && !closed
    {
      title, subject, content, error := "", "", "", "";
      isUploading, saveRequests, closed := false, [], false;
    }

    /** `resetForm()`: clears the three inputs and the error, and nothing else. */
    method ResetForm()
      modifies this`title, this`subject, this`content, this`error
      ensures title == "" && subject == "" && content == "" && error == ""
      ensures isUploading == old(isUploading) && saveRequests == old(saveRequests) && closed == old(closed)
    {
      title, subject, content, error := "", "", "", "";
    }

    /** `handleFileUpload(e)`; the asynchronous read is folded into the call. */
    method HandleFileUpload(file: Option<ChosenFile>)
      modifies this`content, this`error
      ensures file.None? ==> unchanged(this)
      ensures file.Some? && file.value.mimeType == "text/plain" ==>
        content == (if file.value.text != "" then file.value.text else old(content)) &&
        title == old(title) && subject == old(subject) && error == old(error)
      ensures file.Some? && file.value.mimeType != "text/plain" ==>
        error == TextFileRequired &&
        title == old(title) && subject == old(subject) && content == old(content)
      ensures isUploading == old(isUploading) && saveRequests == old(saveRequests) && closed == old(closed)
    {
      if file.Some? {
        if file.value.mimeType == "text/plain" {
          if file.value.text != "" {
            content := file.value.text;
          }
        } else {
          error := TextFileRequired;
        }
      }
    }

    /** `handleSubmit(e)`, signed in as `user` at time `now`, with `save` the settlement of
        `saveLectureNotes`. */
    method HandleSubmit(user: Option<string>, now: int, save: Outcome)
      modifies this`title, this`subject, this`content, this`error, this`isUploading, this`saveRequests, this`closed
      ensures user.None? ==> unchanged(this)
      ensures user.Some? && SubmitError(old(title), old(content)).Some? ==>
        error == SubmitError(old(title), old(content)).value &&
        title == old(title) && subject == old(subject) && content == old(content) &&
        isUploading == old(isUploading) && saveRequests == old(saveRequests) && closed == old(closed)
      ensures user.Some? && SubmitError(old(title), old(content)).None? ==>
        saveRequests == old(saveRequests) + [BuildNotesData(old(title), old(subject), old(content), user.value, now)] &&
        !isUploading
      ensures user.Some? && SubmitError(old(title), old(content)).None? && save.Resolved? ==>
        title == "" && subject == "" && content == "" && error == "" && closed
      ensures user.Some? && SubmitError(old(title), old(content)).None? && save.Rejected? ==>
        error == MessageOr(save.message, SaveFailed) &&
        title == old(title) && subject == old(subject) && content == old(content) && closed == old(closed)
    {
      if user.None? {
        return;
      }
      var invalid := SubmitError(title, content);
      if invalid.Some? {
        error := invalid.value;
        return;
      }
      error := "";
      isUploading := true;
      SaveNotes(BuildNotesData(title, subject, content, user.value, now), save);
    }

    /** The `try` / `catch` / `finally` of `handleSubmit`: hands `notes` to the service, then
        resets and closes the dialog on success or shows the failure, and ends the upload. */
    method SaveNotes(notes: NotesData, save: Outcome)
      modifies this`title, this`subject, this`content, this`error, this`isUploading, this`saveRequests, this`closed
      ensures saveRequests == old(saveRequests) + [notes] && !isUploading
      ensures save.Resolved? ==> title == "" && subject == "" && content == "" && error == "" && closed
      ensures save.Rejected? ==>
        error == MessageOr(save.message, SaveFailed) &&
        title == old(title) && subject == old(subject) && content == old(content) && closed == old(closed)
    {
      saveRequests := saveRequests + [notes];
      match save {
        case Resolved =>
          ResetForm();
          closed := true;
        case Rejected(message) =>
          error := MessageOr(message, SaveFailed);
      }
      isUploading := false;
    }
  }
}
