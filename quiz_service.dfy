/** The record handling of `lib/services/quiz.js` around its Firestore calls: the coercions
    applied to fetched session and note documents, the defaults merged into a record before
    it is saved, and the newest-first client-side sorts. A document is a map from field names
    to values, so an object spread is a map union in which the right operand wins. The
    queries themselves are parameters: what they resolve to, or `None` when they reject. */
module QuizService {
  import opened Util
  import opened StableSort

  /** A JavaScript value as it occurs in a stored document. Numbers are integers; `Time` is a
      Firestore `Timestamp` or a `Date`, given as milliseconds since the epoch. */
  datatype Value =
    | Undefined
    | Null
    | Bool(b: bool)
    | Num(x: int)
    | Str(s: string)
    | Time(t: int)
    | Arr(items: seq<Value>)
    | Obj(fields: map<string, Value>)

  type Doc = map<string, Value>

  /** `data.field`: `undefined` for a field the document lacks. */
  function Get(d: Doc, field: string): Value {
    if field in d then d[field] else Undefined
  }

  /** JavaScript truthiness. */
  predicate Truthy(v: Value) {
    match v
    case Undefined => false
    case Null => false
    case Bool(b) => b
    case Num(x) => x != 0
    case Str(s) => s != ""
    case _ => true
  }

  // ---------------------------------------------------------------------------------------
  // Field coercions

  /** `v || new Date()`. */
  function OrNow(v: Value, now: int): (r: Value)
    ensures Truthy(r)
    ensures Truthy(v) ==> r == v
    ensures !Truthy(v) ==> r == Time(now)
  {
    if Truthy(v) then v else Time(now)
  }

  /** `typeof v === 'number' ? v : 0`. */
  function NumberOrZero(v: Value): (r: Value)
    ensures r.Num?
    ensures v.Num? ==> r == v
    ensures !v.Num? ==> r == Num(0)
  {
    if v.Num? then v else Num(0)
  }

  /** `typeof v === 'string' ? v : fallback`. */
  function StringOr(v: Value, fallback: string): (r: Value)
    ensures r.Str?
    ensures v.Str? ==> r == v
    ensures !v.Str? ==> r == Str(fallback)
  {
    if v.Str? then v else Str(fallback)
  }

  /** `{ id: doc.id, ...doc.data() }`. */
  function WithId(docId: string, data: Doc): (r: Doc)
    ensures r.Keys == data.Keys + {"id"}
    ensures r["id"] == if "id" in data then data["id"] else Str(docId)
    ensures forall k | k in data :: r[k] == data[k]
  {
    map["id" := Str(docId)] + data
  }

  // ---------------------------------------------------------------------------------------
  // Sessions

  /** The mapping in `getUserQuizSessions`: `{ id, ...data, completedAt: data.completedAt ||
      new Date(), timeSpent: number or 0, score: number or 0 }`. */
  function NormaliseSession(docId: string, data: Doc, now: int): (r: Doc)
    ensures r.Keys == data.Keys + {"id", "completedAt", "timeSpent", "score"}
  {
    WithId(docId, data) + map[
      "completedAt" := OrNow(Get(data, "completedAt"), now),
      "timeSpent" := NumberOrZero(Get(data, "timeSpent")),
      "score" := NumberOrZero(Get(data, "score"))]
  }

  /** A normalised session keeps a numeric score and time and a truthy completion date and
      puts 0, 0 and the current time otherwise; the document's own `id` field, if any, wins
      over the document id. */
  lemma NormaliseSessionFields(docId: string, data: Doc, now: int)
    ensures NormaliseSession(docId, data, now)["id"] == if "id" in data then data["id"] else Str(docId)
    ensures NormaliseSession(docId, data, now)["score"] == if Get(data, "score").Num? then data["score"] else Num(0)
    ensures NormaliseSession(docId, data, now)["timeSpent"] == if Get(data, "timeSpent").Num? then data["timeSpent"] else Num(0)
    ensures NormaliseSession(docId, data, now)["completedAt"] == if Truthy(Get(data, "completedAt")) then data["completedAt"] else Time(now)
  {
  }

  const SessionOverrides: set<string> := {"completedAt", "timeSpent", "score"}

  /** Every other field of the data is carried over unchanged. */
  lemma NormaliseSessionKeeps(docId: string, data: Doc, now: int, k: string)
    requires k in data && k !in SessionOverrides
    ensures NormaliseSession(docId, data, now)[k] == data[k]
  {
  }

  /** What every normalised session satisfies: numeric score and time, a truthy completion
      date. */
  predicate WellTypedSession(d: Doc) {
    "id" in d && Get(d, "score").Num? && Get(d, "timeSpent").Num? && Truthy(Get(d, "completedAt"))
  }

  lemma NormaliseSessionWellTyped(docId: string, data: Doc, now: int)
    ensures WellTypedSession(NormaliseSession(docId, data, now))
  {
    NormaliseSessionFields(docId, data, now);
  }

  /** Normalising a normalised session changes nothing, whatever the clock says. */
  lemma NormaliseSessionIdempotent(docId: string, data: Doc, now: int, later: int)
    ensures NormaliseSession(docId, NormaliseSession(docId, data, now), later) == NormaliseSession(docId, data, now)
  {
    var r := NormaliseSession(docId, data, now);
    var r' := NormaliseSession(docId, r, later);
    NormaliseSessionFields(docId, data, now);
    NormaliseSessionFields(docId, r, later);
    forall k | k in r ensures r'[k] == r[k] {
      if k in SessionOverrides {
      } else if k == "id" {
      } else {
        NormaliseSessionKeeps(docId, data, now, k);
        NormaliseSessionKeeps(docId, r, later, k);
      }
    }
    assert r'.Keys == r.Keys;
    DocsEqual(r', r);
  }

  // ---------------------------------------------------------------------------------------
  // Notes

  /** The mapping in `getUserLectureNotes` and `getLectureNote`: `{ id, ...data, uploadedAt:
      data.uploadedAt || new Date(), wordCount and characterCount: number or 0, content:
      string or '', title: string or 'Untitled Notes', subject: string or 'General' }`. */
  function NormaliseNote(docId: string, data: Doc, now: int): (r: Doc)
    ensures r.Keys == data.Keys + {"id"} + NoteOverrides
  {
    WithId(docId, data) + map[
      "uploadedAt" := OrNow(Get(data, "uploadedAt"), now),
      "wordCount" := NumberOrZero(Get(data, "wordCount")),
      "characterCount" := NumberOrZero(Get(data, "characterCount")),
      "content" := StringOr(Get(data, "content"), ""),
      "title" := StringOr(Get(data, "title"), "Untitled Notes"),
      "subject" := StringOr(Get(data, "subject"), "General")]
  }

  const NoteOverrides: set<string> := {"uploadedAt", "wordCount", "characterCount", "content", "title", "subject"}

  /** The counts of a normalised note are the stored numbers or 0, and its upload date is
      the stored truthy value or the current time. */
  lemma NormaliseNoteCounts(docId: string, data: Doc, now: int)
    ensures NormaliseNote(docId, data, now)["id"] == if "id" in data then data["id"] else Str(docId)
    ensures NormaliseNote(docId, data, now)["uploadedAt"] == if Truthy(Get(data, "uploadedAt")) then data["uploadedAt"] else Time(now)
    ensures NormaliseNote(docId, data, now)["wordCount"] == if Get(data, "wordCount").Num? then data["wordCount"] else Num(0)
    ensures NormaliseNote(docId, data, now)["characterCount"] == if Get(data, "characterCount").Num? then data["characterCount"] else Num(0)
  {
  }

  /** The text fields of a normalised note are the stored strings, or `''`, `'Untitled
      Notes'` and `'General'`. */
  lemma NormaliseNoteTexts(docId: string, data: Doc, now: int)
    ensures NormaliseNote(docId, data, now)["content"] == if Get(data, "content").Str? then data["content"] else Str("")
    ensures NormaliseNote(docId, data, now)["title"] == if Get(data, "title").Str? then data["title"] else Str("Untitled Notes")
    ensures NormaliseNote(docId, data, now)["subject"] == if Get(data, "subject").Str? then data["subject"] else Str("General")
  {
  }

  /** Every other field of the data is carried over unchanged. */
  lemma NormaliseNoteKeeps(docId: string, data: Doc, now: int, k: string)
    requires k in data && k !in NoteOverrides
    ensures NormaliseNote(docId, data, now)[k] == data[k]
  {
  }

  predicate WellTypedNote(d: Doc) {
    "id" in d && Truthy(Get(d, "uploadedAt")) && Get(d, "wordCount").Num? && Get(d, "characterCount").Num?
    && Get(d, "content").Str? && Get(d, "title").Str? && Get(d, "subject").Str?
  }

  lemma NormaliseNoteWellTyped(docId: string, data: Doc, now: int)
    ensures WellTypedNote(NormaliseNote(docId, data, now))
  {
    NormaliseNoteCounts(docId, data, now);
    NormaliseNoteTexts(docId, data, now);
  }

  /** Two documents with the same fields and the same value in each are equal. */
  lemma DocsEqual(a: Doc, b: Doc)
    requires a.Keys == b.Keys && forall k | k in a :: a[k] == b[k]
    ensures a == b
  {
  }

  /** Normalising a normalised note changes nothing. */
  lemma NormaliseNoteIdempotent(docId: string, data: Doc, now: int, later: int)
    ensures NormaliseNote(docId, NormaliseNote(docId, data, now), later) == NormaliseNote(docId, data, now)
  {
    var r := NormaliseNote(docId, data, now);
    var r' := NormaliseNote(docId, r, later);
    forall k | k in r ensures r'[k] == r[k] {
      NormaliseNoteStableAt(docId, data, now, later, k);
    }
    NormaliseNoteSameKeys(docId, data, now, later);
    DocsEqual(r', r);
  }

  lemma NormaliseNoteSameKeys(docId: string, data: Doc, now: int, later: int)
    ensures NormaliseNote(docId, NormaliseNote(docId, data, now), later).Keys == NormaliseNote(docId, data, now).Keys
  {
  }

  lemma NormaliseNoteStableAt(docId: string, data: Doc, now: int, later: int, k: string)
    requires k in NormaliseNote(docId, data, now)
    ensures NormaliseNote(docId, NormaliseNote(docId, data, now), later)[k] == NormaliseNote(docId, data, now)[k]
  {
    if k == "id" || k == "uploadedAt" || k == "wordCount" || k == "characterCount" {
      NormaliseNoteCountsStable(docId, data, now, later);
    } else if k == "content" || k == "title" || k == "subject" {
      NormaliseNoteTextsStable(docId, data, now, later);
    } else {
      NormaliseNoteOtherStable(docId, data, now, later, k);
    }
  }

  lemma NormaliseNoteOtherStable(docId: string, data: Doc, now: int, later: int, k: string)
    requires k in data && k !in NoteOverrides && k != "id"
    ensures NormaliseNote(docId, NormaliseNote(docId, data, now), later)[k] == data[k]
  {
    NormaliseNoteKeeps(docId, data, now, k);
    NormaliseNoteKeeps(docId, NormaliseNote(docId, data, now), later, k);
  }

  lemma NormaliseNoteCountsStable(docId: string, data: Doc, now: int, later: int)
    ensures var r := NormaliseNote(docId, data, now);
      var r' := NormaliseNote(docId, r, later);
      r'["id"] == r["id"] && r'["uploadedAt"] == r["uploadedAt"] &&
      r'["wordCount"] == r["wordCount"] && r'["characterCount"] == r["characterCount"]
  {
    NormaliseNoteCounts(docId, data, now);
    NormaliseNoteCounts(docId, NormaliseNote(docId, data, now), later);
  }

  lemma NormaliseNoteTextsStable(docId: string, data: Doc, now: int, later: int)
    ensures var r := NormaliseNote(docId, data, now);
      var r' := NormaliseNote(docId, r, later);
      r'["content"] == r["content"] && r'["title"] == r["title"] && r'["subject"] == r["subject"]
  {
    NormaliseNoteTexts(docId, data, now);
    NormaliseNoteTexts(docId, NormaliseNote(docId, data, now), later);
  }

  /** What `getDoc` resolved to in `getQuiz` and `getLectureNote`. */
  datatype Snapshot = Exists(data: Doc) | Missing

  /** The settlement of a single-document lookup: the record, `null`, or a thrown error. */
  datatype Lookup = Found(record: Doc) | NotFound | Thrown(message: string)

  /** `saveQuiz(quiz)`: the record handed to `addDoc` is the quiz with `createdAt` set to the
      current time, whatever the quiz held there. */
  function QuizRecord(quiz: Doc, now: int): (r: Doc)
    ensures r.Keys == quiz.Keys + {"createdAt"}
    ensures r["createdAt"] == Time(now)
    ensures forall k | k in quiz && k != "createdAt" :: r[k] == quiz[k]
  {
    quiz + map["createdAt" := Time(now)]
  }

  /** `getQuiz(quizId)`: `fetched` is `None` when `getDoc` rejects. */
  function GetQuiz(quizId: string, fetched: Option<Snapshot>): (r: Lookup)
    ensures fetched == None <==> r == Thrown("Failed to get quiz")
    ensures fetched == Some(Missing) <==> r == NotFound
    ensures r.Found? <==> fetched.Some? && fetched.value.Exists?
    ensures r.Found? ==> r.record == WithId(quizId, fetched.value.data)
  {
    match fetched
    case None => Thrown("Failed to get quiz")
    case Some(Missing) => NotFound
    case Some(Exists(data)) => Found(WithId(quizId, data))
  }

  /** A saved quiz read back by `getQuiz` carries its id and the saving time, and every other
      field of the quiz as saved. */
  lemma SavedQuizReadBack(quizId: string, quiz: Doc, now: int)
    requires "id" !in quiz
    ensures var r := GetQuiz(quizId, Some(Exists(QuizRecord(quiz, now))));
      r.Found? && r.record["id"] == Str(quizId) && r.record["createdAt"] == Time(now) &&
      r.record.Keys == quiz.Keys + {"id", "createdAt"} &&
      forall k | k in quiz && k != "createdAt" :: r.record[k] == quiz[k]
  {
  }

  /** `getLectureNote(noteId)`: `fetched` is `None` when `getDoc` rejects. */
  function GetLectureNote(noteId: string, fetched: Option<Snapshot>, now: int): (r: Lookup)
    ensures fetched == None <==> r == Thrown("Failed to get lecture note")
    ensures fetched == Some(Missing) <==> r == NotFound
    ensures r.Found? ==>
      (fetched.Some? && fetched.value.Exists? &&
       r.record == NormaliseNote(noteId, fetched.value.data, now) && WellTypedNote(r.record))
  {
    match fetched
    case None => Thrown("Failed to get lecture note")
    case Some(Missing) => NotFound
    case Some(Exists(data)) =>
      NormaliseNoteWellTyped(noteId, data, now);
      Found(NormaliseNote(noteId, data, now))
  }

  // ---------------------------------------------------------------------------------------
  // The JSON round trip and the defaults merge before saving

  /** `JSON.parse(JSON.stringify(v))` on the values modelled here: an `undefined` property is
      dropped, an `undefined` array element becomes `null`, and a top-level `undefined` stays
      `undefined`. A `Time` stays a `Time` (the string a `Date` becomes reads back as the
      same instant). */
  function Sanitize(v: Value): Value {
    match v
    case Arr(items) => Arr(seq(|items|, i requires 0 <= i < |items| => if items[i] == Undefined then Null else Sanitize(items[i])))
    case Obj(m) => Obj(map k | k in m && m[k] != Undefined :: Sanitize(m[k]))
    case _ => v
  }

  /** A value with no `undefined` anywhere inside it. */
  predicate Clean(v: Value) {
    match v
    case Undefined => false
    case Arr(items) => forall i | 0 <= i < |items| :: Clean(items[i])
    case Obj(m) => forall k | k in m :: Clean(m[k])
    case _ => true
  }

  /** The round trip leaves no `undefined` behind. */
  lemma {:induction false} SanitizeCleans(v: Value)
    requires v != Undefined
    ensures Clean(Sanitize(v))
  {
    match v
    case Arr(items) =>
      forall i | 0 <= i < |items| && items[i] != Undefined ensures Clean(Sanitize(items[i])) {
        SanitizeCleans(items[i]);
      }
    case Obj(m) =>
      forall k | k in m && m[k] != Undefined ensures Clean(Sanitize(m[k])) {
        SanitizeCleans(m[k]);
      }
    case _ =>
  }

  /** The round trip leaves a clean value as it is; so it is idempotent. */
  lemma {:induction false} SanitizeKeepsClean(v: Value)
    requires Clean(v)
    ensures Sanitize(v) == v
  {
    match v
    case Arr(items) =>
      forall i | 0 <= i < |items| ensures Sanitize(items[i]) == items[i] {
        SanitizeKeepsClean(items[i]);
      }
      assert Sanitize(v).items == items;
    case Obj(m) =>
      forall k | k in m ensures Sanitize(m[k]) == m[k] {
        SanitizeKeepsClean(m[k]);
      }
      assert Sanitize(v).fields == m;
    case _ =>
  }

  lemma SanitizeIdempotent(v: Value)
    ensures Sanitize(Sanitize(v)) == Sanitize(v)
  {
    if v != Undefined {
      SanitizeCleans(v);
      SanitizeKeepsClean(Sanitize(v));
    }
  }

  /** `{ ...defaults, ...JSON.parse(JSON.stringify(record)) }`: a default is taken exactly for
      the fields the record lacks or holds as `undefined`; every other field is the record's,
      round-tripped (so a `null` field stays `null`). */
  function WithDefaults(defaults: Doc, record: Doc): (r: Doc)
    ensures r.Keys == defaults.Keys + set k | k in record && record[k] != Undefined
    ensures forall k | k in record && record[k] != Undefined :: r[k] == Sanitize(record[k])
    ensures forall k | k in defaults && (k !in record || record[k] == Undefined) :: r[k] == defaults[k]
  {
    defaults + Sanitize(Obj(record)).fields
  }

  /** With clean defaults the merged record is clean, and merging again changes nothing. */
  lemma WithDefaultsClean(defaults: Doc, record: Doc)
    requires forall k | k in defaults :: Clean(defaults[k])
    ensures forall k | k in WithDefaults(defaults, record) :: Clean(WithDefaults(defaults, record)[k])
    ensures WithDefaults(defaults, WithDefaults(defaults, record)) == WithDefaults(defaults, record)
  {
    var r := WithDefaults(defaults, record);
    forall k | k in r ensures Clean(r[k]) {
      if k in record && record[k] != Undefined {
        SanitizeCleans(record[k]);
      }
    }
    var r' := WithDefaults(defaults, r);
    forall k | k in r ensures r'[k] == r[k] {
      SanitizeKeepsClean(r[k]);
    }
    assert r'.Keys == r.Keys;
  }

  /** The defaults of `saveQuizSession`. */
  function SessionDefaults(now: int): Doc {
    map["quizId" := Str(""), "userId" := Str(""), "score" := Num(0), "timeSpent" := Num(0),
        "totalQuestions" := Num(0), "completedAt" := Time(now), "answers" := Arr([])]
  }

  /** The record `saveQuizSession` hands to `addDoc`. */
  function SessionWithDefaults(session: Doc, now: int): Doc {
    WithDefaults(SessionDefaults(now), session)
  }

  /** The saved session has every required field, nothing `undefined`, and each default
      exactly where the session lacks the field. */
  lemma SessionWithDefaultsSpec(session: Doc, now: int)
    ensures SessionDefaults(now).Keys <= SessionWithDefaults(session, now).Keys
    ensures forall k | k in SessionWithDefaults(session, now) :: Clean(SessionWithDefaults(session, now)[k])
    ensures forall k | k in SessionDefaults(now) ::
      SessionWithDefaults(session, now)[k] == if k in session && session[k] != Undefined then Sanitize(session[k]) else SessionDefaults(now)[k]
  {
    WithDefaultsClean(SessionDefaults(now), session);
  }

  /** The defaults of `saveLectureNotes`. */
  function NoteDefaults(now: int): Doc {
    map["title" := Str("Untitled Notes"), "subject" := Str("General"), "content" := Str(""),
        "userId" := Str(""), "uploadedAt" := Time(now), "wordCount" := Num(0), "characterCount" := Num(0)]
  }

  /** The record `saveLectureNotes` hands to `addDoc`. */
  function NotesWithDefaults(notes: Doc, now: int): Doc {
    WithDefaults(NoteDefaults(now), notes)
  }

  lemma NotesWithDefaultsSpec(notes: Doc, now: int)
    ensures NoteDefaults(now).Keys <= NotesWithDefaults(notes, now).Keys
    ensures forall k | k in NotesWithDefaults(notes, now) :: Clean(NotesWithDefaults(notes, now)[k])
    ensures forall k | k in NoteDefaults(now) ::
      NotesWithDefaults(notes, now)[k] == if k in notes && notes[k] != Undefined then Sanitize(notes[k]) else NoteDefaults(now)[k]
  {
    WithDefaultsClean(NoteDefaults(now), notes);
  }

  // ---------------------------------------------------------------------------------------
  // Newest-first ordering

  /** The instant `bDate - aDate` compares: `v.toDate()` for a timestamp, `new Date(v)` for a
      number, `true` or `null`. Other values (date strings, arrays, objects) are given the
      instant 0. */
  function DateKey(v: Value): real {
    match v
    case Time(t) => t as real
    case Num(x) => x as real
    case Bool(b) => if b then 1.0 else 0.0
    case _ => 0.0
  }

  function CompletedAtKey(d: Doc): real { DateKey(Get(d, "completedAt")) }

  function UploadedAtKey(d: Doc): real { DateKey(Get(d, "uploadedAt")) }

  function CreatedAtKey(d: Doc): real { DateKey(Get(d, "createdAt")) }

  /** `docs.sort((a, b) => key(b) - key(a))` on a fresh array. */
  method SortNewestFirst(docs: seq<Doc>, key: Doc -> real) returns (sorted: seq<Doc>)
    ensures sorted == SortDesc(docs, key)
  {
    var a := new Doc[|docs|](i requires 0 <= i < |docs| => docs[i]);
    assert a[..] == docs;
    SortInPlace(a, key);
    sorted := a[..];
  }

  /** The first `n` of a newest-first sort: at most `n` entries, newest first, drawn from the
      input, all of it when it has at most `n` entries, and none older than an entry left
      out. */
  lemma NewestFirstPrefix<T>(xs: seq<T>, key: T -> real, n: nat)
    ensures |Take(SortDesc(xs, key), n)| <= n
    ensures SortedDesc(Take(SortDesc(xs, key), n), key)
    ensures multiset(Take(SortDesc(xs, key), n)) <= multiset(xs)
    ensures |xs| <= n ==> multiset(Take(SortDesc(xs, key), n)) == multiset(xs)
    ensures forall d, e | d in Take(SortDesc(xs, key), n) && e in xs && e !in Take(SortDesc(xs, key), n) :: key(d) >= key(e)
  {
    var sorted := SortDesc(xs, key);
    var r := Take(sorted, n);
    SortDescSorted(xs, key);
    SortDescPermutes(xs, key);
    assert sorted == r + sorted[|r|..];
    assert multiset(sorted) == multiset(r) + multiset(sorted[|r|..]);
    forall d, e | d in r && e in xs && e !in r ensures key(d) >= key(e) {
      var i :| 0 <= i < |r| && r[i] == d;
      assert e in multiset(sorted);
      var j :| 0 <= j < |sorted| && sorted[j] == e;
      assert sorted[i] == d;
    }
  }

  /** The normalised fetched sessions, in fetch order. */
  function NormaliseSessions(fetched: seq<(string, Doc)>, now: int): (r: seq<Doc>)
    ensures |r| == |fetched|
    ensures forall i | 0 <= i < |r| :: r[i] == NormaliseSession(fetched[i].0, fetched[i].1, now)
  {
    seq(|fetched|, i requires 0 <= i < |fetched| => NormaliseSession(fetched[i].0, fetched[i].1, now))
  }

  /** `getUserQuizSessions(userId)`: `fetched` holds the id and data of each document the
      query returned, or is `None` when it rejects (then the result is empty). */
  method GetUserQuizSessions(fetched: Option<seq<(string, Doc)>>, now: int) returns (sessions: seq<Doc>)
    ensures fetched.None? ==> sessions == []
    ensures fetched.Some? ==> sessions == Take(SortDesc(NormaliseSessions(fetched.value, now), CompletedAtKey), 20)
  {
    if fetched.None? {
      return [];
    }
    var docs := NormaliseSessions(fetched.value, now);
    var sorted := SortNewestFirst(docs, CompletedAtKey);
    sessions := Take(sorted, 20);
  }

  /** What `getUserQuizSessions` resolves to: at most 20 well-typed sessions, newest first,
      each a normalised fetched document, every fetched session when there are at most 20,
      and none older than a session left out. */
  lemma QuizSessionsSpec(fetched: seq<(string, Doc)>, now: int)
    ensures |Take(SortDesc(NormaliseSessions(fetched, now), CompletedAtKey), 20)| <= 20
    ensures SortedDesc(Take(SortDesc(NormaliseSessions(fetched, now), CompletedAtKey), 20), CompletedAtKey)
    ensures multiset(Take(SortDesc(NormaliseSessions(fetched, now), CompletedAtKey), 20)) <= multiset(NormaliseSessions(fetched, now))
    ensures |fetched| <= 20 ==> multiset(Take(SortDesc(NormaliseSessions(fetched, now), CompletedAtKey), 20)) == multiset(NormaliseSessions(fetched, now))
    ensures forall d | d in Take(SortDesc(NormaliseSessions(fetched, now), CompletedAtKey), 20) :: WellTypedSession(d)
    ensures forall d, e | d in Take(SortDesc(NormaliseSessions(fetched, now), CompletedAtKey), 20) &&
        e in NormaliseSessions(fetched, now) && e !in Take(SortDesc(NormaliseSessions(fetched, now), CompletedAtKey), 20) ::
      CompletedAtKey(d) >= CompletedAtKey(e)
  {
    var xs := NormaliseSessions(fetched, now);
    NewestFirstPrefix(xs, CompletedAtKey, 20);
    var r := Take(SortDesc(xs, CompletedAtKey), 20);
    forall d | d in r ensures WellTypedSession(d) {
      assert d in multiset(xs);
      var i :| 0 <= i < |xs| && xs[i] == d;
      NormaliseSessionWellTyped(fetched[i].0, fetched[i].1, now);
    }
  }

  /** The normalised fetched notes, in fetch order. */
  function NormaliseNotes(fetched: seq<(string, Doc)>, now: int): (r: seq<Doc>)
    ensures |r| == |fetched|
    ensures forall i | 0 <= i < |r| :: r[i] == NormaliseNote(fetched[i].0, fetched[i].1, now)
  {
    seq(|fetched|, i requires 0 <= i < |fetched| => NormaliseNote(fetched[i].0, fetched[i].1, now))
  }

  /** `getUserLectureNotes(userId)`: every fetched note, normalised, newest first. */
  method GetUserLectureNotes(fetched: Option<seq<(string, Doc)>>, now: int) returns (notes: seq<Doc>)
    ensures fetched.None? ==> notes == []
    ensures fetched.Some? ==> notes == SortDesc(NormaliseNotes(fetched.value, now), UploadedAtKey)
  {
    if fetched.None? {
      return [];
    }
    notes := SortNewestFirst(NormaliseNotes(fetched.value, now), UploadedAtKey);
  }

  /** The notes are a newest-first permutation of the normalised fetched notes, each well
      typed. */
  lemma LectureNotesSpec(fetched: seq<(string, Doc)>, now: int)
    ensures SortedDesc(SortDesc(NormaliseNotes(fetched, now), UploadedAtKey), UploadedAtKey)
    ensures multiset(SortDesc(NormaliseNotes(fetched, now), UploadedAtKey)) == multiset(NormaliseNotes(fetched, now))
    ensures forall d | d in SortDesc(NormaliseNotes(fetched, now), UploadedAtKey) :: WellTypedNote(d)
  {
    var xs := NormaliseNotes(fetched, now);
    SortDescSorted(xs, UploadedAtKey);
    SortDescPermutes(xs, UploadedAtKey);
    forall d | d in SortDesc(xs, UploadedAtKey) ensures WellTypedNote(d) {
      assert d in multiset(xs);
      var i :| 0 <= i < |xs| && xs[i] == d;
      NormaliseNoteWellTyped(fetched[i].0, fetched[i].1, now);
    }
  }

  /** The fetched quizzes with their ids, in fetch order. */
  function QuizzesWithIds(fetched: seq<(string, Doc)>): (r: seq<Doc>)
    ensures |r| == |fetched|
    ensures forall i | 0 <= i < |r| :: r[i] == WithId(fetched[i].0, fetched[i].1)
  {
    seq(|fetched|, i requires 0 <= i < |fetched| => WithId(fetched[i].0, fetched[i].1))
  }

  /** `getUserQuizzes(userId)`: every fetched quiz with its id, newest first. */
  method GetUserQuizzes(fetched: Option<seq<(string, Doc)>>) returns (quizzes: seq<Doc>)
    ensures fetched.None? ==> quizzes == []
    ensures fetched.Some? ==> quizzes == SortDesc(QuizzesWithIds(fetched.value), CreatedAtKey)
  {
    if fetched.None? {
      return [];
    }
    quizzes := SortNewestFirst(QuizzesWithIds(fetched.value), CreatedAtKey);
  }

  /** The quizzes are a permutation of the fetched ones, newest first, quizzes created at the
      same instant keeping their fetch order. */
  lemma UserQuizzesSpec(fetched: seq<(string, Doc)>, t: real)
    ensures SortedDesc(SortDesc(QuizzesWithIds(fetched), CreatedAtKey), CreatedAtKey)
    ensures multiset(SortDesc(QuizzesWithIds(fetched), CreatedAtKey)) == multiset(QuizzesWithIds(fetched))
    ensures WithKey(SortDesc(QuizzesWithIds(fetched), CreatedAtKey), CreatedAtKey, t) == WithKey(QuizzesWithIds(fetched), CreatedAtKey, t)
  {
    SortDescSorted(QuizzesWithIds(fetched), CreatedAtKey);
    SortDescPermutes(QuizzesWithIds(fetched), CreatedAtKey);
    SortDescStable(QuizzesWithIds(fetched), CreatedAtKey, t);
  }
}
