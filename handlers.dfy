/** `BotHandlers`: the per-user sessions of the photo bot and the handlers
    that move them through the dialogue (title, grid, photo size, uploads,
    confirmation). Each handler is one event: the message it reads is a
    parameter, the clock is a parameter, and the purge that
    `cleanup_user_data` schedules an hour ahead is a pending event fired by
    `DelayedCleanup`. Replies to the user are not modelled; what a handler
    returns to the conversation, or the exception it raises, is. */
module Handlers {
  import opened Common
  import PyText
  import Pagination
  import Images

  /** The `state` string kept in each session: 'title', 'rows_input',
      'cols_input', 'size_selection', 'upload_photos', 'confirmation'. */
  datatype Tag = TitleTag | RowsInput | ColsInput | SizeSelection | UploadPhotos | Confirmation

  /** `TITLE, ROWS, COLS, SIZE_OPTION, PHOTOS, CONFIRM, CONFIRM_BACK = range(7)`. */
  datatype ConvState = TitleState | RowsState | ColsState | SizeState | PhotosState | ConfirmState | ConfirmBackState

  /** What a handler hands back to the conversation: a next state, `END`,
      `None` (the conversation stays where it is), or an exception. */
  datatype Reply = Goto(state: ConvState) | End | Stay | Raised(error: PyError)

  /** One user's record in `self.user_data`. */
  datatype Session = Session(
    title: Option<string>,
    rows: Option<int>,
    cols: Option<int>,
    sizeOption: Option<string>,
    photos: seq<Bytes>,
    createdAt: int,
    tag: Tag)

  /** The record `start` creates at time `now`. */
  function FreshSession(now: int): Session {
    Session(None, None, None, None, [], now, TitleTag)
  }

  /** The fields of `BotConfig` the handlers read. */
  datatype Config = Config(
    sessionTimeout: int,
    maxPhotos: int,
    maxRows: int,
    maxCols: int,
    imageQuality: int,
    imageMaxSize: nat,
    cleanupInterval: int)

  /** `BotConfig()` with its defaults. */
  const DefaultConfig: Config := Config(1800, 100, 10, 10, 85, 2000, 600)

  /** `BotConfig.max_photos` read on the class rather than on the instance:
      always the default. */
  const ClassMaxPhotos: int := 100

  /** An incoming upload: a photo, a document with an optional MIME type,
      or neither. `download` is `None` when fetching the file raises. */
  datatype Message =
    | PhotoMsg(download: Option<Bytes>)
    | DocumentMsg(mime: Option<string>, download: Option<Bytes>)
    | NoMedia

  /** The outcome of one handler for one user: the reply, the user's record
      afterwards (`None`: no record), and whether a delayed purge of that
      user was scheduled. */
  datatype Step = Step(reply: Reply, record: Option<Session>, purge: bool)

  /** The user's record, if there is one. */
  function At(m: map<int, Session>, uid: int): Option<Session> {
    if uid in m then Some(m[uid]) else None
  }

  /** The sessions once `st` has been applied for `uid`. */
  function After(m: map<int, Session>, uid: int, st: Step): map<int, Session> {
    if st.record.Some? then m[uid := st.record.value] else m - {uid}
  }

  /** The pending purges once `st` has been applied for `uid`. */
  function Scheduled(purges: multiset<int>, uid: int, st: Step): multiset<int> {
    if st.purge then purges + multiset{uid} else purges
  }

  /** Python truthiness of an optional string. */
  predicate Truthy(s: Option<string>) {
    s.Some? && s.value != ""
  }

  /** `rows * cols` on two record fields; `None * x` raises `TypeError`. */
  function Product(rows: Option<int>, cols: Option<int>): Result<int, PyError> {
    if rows.None? || cols.None? then Failure(TypeError) else Success(rows.value * cols.value)
  }

  /** `calculate_pages_info(count, rows, cols)` on the record fields. */
  function PagesInfoOf(count: nat, rows: Option<int>, cols: Option<int>): Result<Pagination.PagesInfo, PyError> {
    if rows.None? || cols.None? then Failure(TypeError)
    else Pagination.CalculatePagesInfo(count, rows.value, cols.value)
  }

  /** What `int(text)` returned (`None`: it raised `ValueError`), kept only
      when positive; `<= 0` is rejected like `ValueError`. */
  function Positive(parsed: Option<int>): (r: Option<int>)
    ensures r.Some? ==> r.value > 0 && r == parsed
    ensures r.None? ==> parsed.None? || parsed.value <= 0
  {
    if parsed.Some? && parsed.value > 0 then parsed else None
  }

  /** `int(text)` accepted only when positive. */
  function PositiveInt(text: string): Option<int> {
    Positive(PyText.ParseInt(text))
  }

  /** `response == 'нет'` with `response = text.strip().lower()`. */
  predicate SaysNo(text: string) {
    PyText.Lower(PyText.Strip(text)) == "нет"
  }

  /** The replies `handle_confirm_back` takes as "yes", after `lower()`. */
  predicate Affirmative(text: string) {
    PyText.Lower(text) in {"да", "yes", "ок", "окей", "вернуться"}
  }

  // ------------------------------------------------------------ the steps

  /** `start`: clean up any old record, then a fresh one. */
  function StartStep(rec: Option<Session>, now: int): Step {
    Step(Goto(TitleState), Some(FreshSession(now)), rec.Some?)
  }

  /** `handle_no_title`. */
  function NoTitleStep(rec: Option<Session>): Step {
    match rec
    case None => Step(End, None, false)
    case Some(s) => Step(Goto(RowsState), Some(s.(title := None, tag := RowsInput)), false)
  }

  /** `get_title`; a missing record makes the first assignment raise. */
  function TitleStep(rec: Option<Session>, text: string): Step {
    match rec
    case None => Step(Raised(KeyError), None, false)
    case Some(s) =>
      var title := if SaysNo(text) then None else Some(text);
      Step(Goto(RowsState), Some(s.(title := title, tag := RowsInput)), false)
  }

  /** `get_rows`; a value above `max_rows` only draws a warning. */
  function RowsStep(rec: Option<Session>, text: string): Step {
    RowsRead(rec, PyText.ParseInt(text))
  }

  /** `get_rows` once `int(text)` has returned `parsed`. */
  function RowsRead(rec: Option<Session>, parsed: Option<int>): Step {
    match Positive(parsed)
    case None => Step(Goto(RowsState), rec, false)
    case Some(n) =>
      match rec
      case None => Step(Raised(KeyError), None, false)
      case Some(s) => Step(Goto(ColsState), Some(s.(rows := Some(n), tag := ColsInput)), false)
  }

  /** `get_cols`: rejected input and a page over `max_photos` stay in COLS. */
  function ColsStep(rec: Option<Session>, text: string, maxPhotos: int): Step {
    ColsRead(rec, PyText.ParseInt(text), maxPhotos)
  }

  /** `get_cols` once `int(text)` has returned `parsed`. */
  function ColsRead(rec: Option<Session>, parsed: Option<int>, maxPhotos: int): Step {
    match Positive(parsed)
    case None => Step(Goto(ColsState), rec, false)
    case Some(n) =>
      match rec
      case None => Step(Raised(KeyError), None, false)
      case Some(s) =>
        match Product(s.rows, Some(n))
        case Failure(e) => Step(Raised(e), rec, false)
        case Success(perPage) =>
          if perPage > maxPhotos then Step(Goto(ColsState), rec, false)
          else Step(Goto(SizeState), Some(s.(cols := Some(n), tag := SizeSelection)), false)
  }

  /** `size_option` on the callback data `data`. */
  function SizeStep(rec: Option<Session>, data: string): Step {
    match rec
    case None => Step(Raised(KeyError), None, false)
    case Some(s) =>
      var key := PyText.RemoveSizePrefixes(data);
      Step(Goto(PhotosState), Some(s.(sizeOption := Some(key), tag := UploadPhotos)), false)
  }

  /** The bytes `get_photo` obtains: a photo, or a document whose MIME type
      contains "image"; `None` for anything else or a failed download. */
  function Upload(msg: Message): Option<Bytes> {
    match msg
    case PhotoMsg(d) => d
    case DocumentMsg(mime, d) => if mime.Some? && PyText.Contains(mime.value, "image") then d else None
    case NoMedia => None
  }

  /** `get_photo`: the upload, normalised by `compress_image`, is appended. */
  function PhotoStep(rec: Option<Session>, msg: Message, cfg: Config, codec: Images.Codec): Step {
    match rec
    case None => Step(End, None, false)
    case Some(s) =>
      match Upload(msg)
      case None => Step(Goto(PhotosState), rec, false)
      case Some(b) =>
        if b == [] then Step(Goto(PhotosState), rec, false)
        else
          var stored := Images.Compressed(codec, b, cfg.imageQuality, cfg.imageMaxSize);
          Step(Goto(PhotosState), Some(s.(photos := s.photos + [stored])), false)
  }

  /** The tag `back_command` moves to from `t` (photos aside). */
  function BackTag(t: Tag): Tag {
    match t
    case UploadPhotos => SizeSelection
    case SizeSelection => ColsInput
    case ColsInput => RowsInput
    case _ => TitleTag
  }

  /** The conversation state announced together with each tag. */
  function StateOf(t: Tag): ConvState {
    match t
    case TitleTag => TitleState
    case RowsInput => RowsState
    case ColsInput => ColsState
    case SizeSelection => SizeState
    case UploadPhotos => PhotosState
    case Confirmation => ConfirmState
  }

  /** The tag the forward dialogue sets after `t`. */
  function NextTag(t: Tag): Tag {
    match t
    case TitleTag => RowsInput
    case RowsInput => ColsInput
    case ColsInput => SizeSelection
    case SizeSelection => UploadPhotos
    case UploadPhotos => Confirmation
    case Confirmation => Confirmation
  }

  /** `back_command`. With photos uploaded it only asks for confirmation
      and leaves the tag at 'upload_photos'. */
  function BackStep(rec: Option<Session>): Step {
    match rec
    case None => Step(End, None, false)
    case Some(s) =>
      if s.tag == UploadPhotos && s.photos != [] then Step(Goto(ConfirmBackState), rec, false)
      else if s.tag == UploadPhotos && Product(s.rows, s.cols).Failure? then Step(Raised(TypeError), rec, false)
      else
        var t := BackTag(s.tag);
        Step(Goto(StateOf(t)), Some(s.(tag := t)), false)
  }

  /** `handle_confirm_back`. Only the affirmative branch binds `user_id`;
      the other one raises `UnboundLocalError` on reading it. */
  function ConfirmBackStep(rec: Option<Session>, text: string): Step {
    if !Affirmative(text) then Step(Raised(UnboundLocalError), rec, false)
    else
      match rec
      case None => Step(Stay, None, false)
      case Some(s) =>
        var emptied := s.(photos := []);
        if !Truthy(s.sizeOption) then Step(Goto(TitleState), Some(emptied.(tag := TitleTag)), false)
        else if Product(s.rows, s.cols).Failure? then Step(Raised(TypeError), Some(emptied), false)
        else Step(Goto(SizeState), Some(emptied.(tag := SizeSelection)), false)
  }

  /** `done_command`. */
  function DoneStep(rec: Option<Session>): Step {
    match rec
    case None => Step(End, None, false)
    case Some(s) =>
      if |s.photos| == 0 then Step(Goto(PhotosState), rec, false)
      else
        match PagesInfoOf(|s.photos|, s.rows, s.cols)
        case Failure(e) => Step(Raised(e), rec, false)
        case Success(_) => Step(Goto(ConfirmState), Some(s.(tag := Confirmation)), false)
  }

  /** How `_create_and_send_document` ends for a present session. */
  datatype SendOutcome = NoSession | TooManyPhotos | Failed(error: PyError)

  /** `_create_and_send_document` for an existing record: the page summary
      first, then the total against the class default `max_photos`, then
      `creator.create_multi_page_document`, an attribute `DocumentCreator`
      does not have. */
  function SendOutcomeOf(s: Session): SendOutcome {
    match PagesInfoOf(|s.photos|, s.rows, s.cols)
    case Failure(e) => Failed(e)
    case Success(_) =>
      if |s.photos| > ClassMaxPhotos then TooManyPhotos else Failed(AttributeError)
  }

  /** `cleanup_user_data`: photos dropped, record kept, purge scheduled. */
  function CleanedUp(rec: Option<Session>): Option<Session> {
    match rec
    case None => None
    case Some(s) => Some(s.(photos := []))
  }

  /** `handle_confirm_yes`. The generic `except` cleans up after a failure;
      the too-many-photos return does not. */
  function ConfirmYesStep(rec: Option<Session>): Step {
    match rec
    case None => Step(End, None, false)
    case Some(s) =>
      match SendOutcomeOf(s)
      case Failed(_) => Step(End, CleanedUp(rec), true)
      case _ => Step(End, rec, false)
  }

  /** `handle_confirm_no` and `cancel`: clean up and end. */
  function DiscardStep(rec: Option<Session>): Step {
    Step(End, CleanedUp(rec), rec.Some?)
  }

  /** `cleanup_command`: photos dropped, no purge scheduled. */
  function CleanupCommandStep(rec: Option<Session>): Step {
    Step(Stay, CleanedUp(rec), false)
  }

  const StartButton: string := "🟢 Начать"
  const BackButton: string := "◀️ Назад"
  const DoneButton: string := "✅ Готово"
  const ClearButton: string := "🧹 Очистить"
  const StatusButton: string := "📊 Статус"
  const HelpButton: string := "❓ Помощь"
  const NoTitleButton: string := "Без заголовка"
  const YesButton: string := "✅ Да, всё верно"
  const NoButton: string := "❌ Нет, начать заново"

  /** `status_command`. It only replies, except in 'upload_photos', where it
      computes the page capacity `rows * cols` and divides by it. */
  function StatusStep(rec: Option<Session>): Step {
    match rec
    case None => Step(Stay, None, false)
    case Some(s) =>
      if s.tag != UploadPhotos then Step(Stay, rec, false)
      else match Product(s.rows, s.cols)
        case Failure(e) => Step(Raised(e), rec, false)
        case Success(p) => if p == 0 then Step(Raised(ZeroDivisionError), rec, false) else Step(Stay, rec, false)
  }

  /** `handle_conversation_buttons`: the button text picks the handler;
      help only replies, anything else returns `None`. */
  function ButtonStep(rec: Option<Session>, text: string, now: int): Step {
    if text == StartButton then StartStep(rec, now)
    else if text == BackButton then BackStep(rec)
    else if text == DoneButton then DoneStep(rec)
    else if text == ClearButton then CleanupCommandStep(rec)
    else if text == StatusButton then StatusStep(rec)
    else if text == HelpButton then Step(Stay, rec, false)
    else if text == NoTitleButton then NoTitleStep(rec)
    else if text == YesButton then ConfirmYesStep(rec)
    else if text == NoButton then DiscardStep(rec)
    else Step(Stay, rec, false)
  }

  /** The sessions older than `timeout` seconds at `now`. */
  function Expired(m: map<int, Session>, now: int, timeout: int): (r: set<int>)
    ensures r <= m.Keys
    ensures forall u :: u in r <==> u in m && now - m[u].createdAt > timeout
  {
    set u | u in m && now - m[u].createdAt > timeout
  }

  /** `m` with the photos of `users` dropped and everything else kept. */
  function ClearPhotos(m: map<int, Session>, users: set<int>): (r: map<int, Session>)
    ensures r.Keys == m.Keys
    ensures forall u :: u in m ==> r[u] == (if u in users then m[u].(photos := []) else m[u])
  {
    map u | u in m :: if u in users then m[u].(photos := []) else m[u]
  }

  // ------------------------------------------------------------ the class

  class BotHandlers {
    const config: Config
    const codec: Images.Codec
    var userData: map<int, Session>
    /** One entry per `_delayed_cleanup` task still sleeping. */
    var pendingPurges: multiset<int>

    constructor (config: Config, codec: Images.Codec)
      ensures this.config == config && this.codec == codec
      ensures userData == map[] && pendingPurges == multiset{}
    {
      this.config := config;
      this.codec := codec;
      userData := map[];
      pendingPurges := multiset{};
    }

    /** `cleanup_user_data(user_id)`. */
    method CleanupUserData(uid: int)
      modifies this
      ensures uid in old(userData) ==>
        userData == old(userData)[uid := old(userData)[uid].(photos := [])] && pendingPurges == old(pendingPurges) + multiset{uid}
      ensures uid !in old(userData) ==> userData == old(userData) && pendingPurges == old(pendingPurges)
    {
      if uid in userData {
        userData := userData[uid := userData[uid].(photos := [])];
        pendingPurges := pendingPurges + multiset{uid};
      }
    }

    /** `_delayed_cleanup(user_id)` firing: whatever record the user has
        now is deleted. */
    method DelayedCleanup(uid: int)
      requires uid in pendingPurges
      modifies this
      ensures userData == old(userData) - {uid}
      ensures pendingPurges == old(pendingPurges) - multiset{uid}
    {
      pendingPurges := pendingPurges - multiset{uid};
      if uid in userData {
        userData := userData - {uid};
      }
    }

    /** `start` at time `now`. */
    method Start(uid: int, now: int) returns (reply: Reply)
      modifies this
      ensures var st := StartStep(At(old(userData), uid), now);
        reply == st.reply && userData == After(old(userData), uid, st) && pendingPurges == Scheduled(old(pendingPurges), uid, st)
    {
      CleanupUserData(uid);
      userData := userData[uid := FreshSession(now)];
      reply := Goto(TitleState);
    }

    /** `handle_no_title`. */
    method HandleNoTitle(uid: int) returns (reply: Reply)
      modifies this
      ensures var st := NoTitleStep(At(old(userData), uid));
        reply == st.reply && userData == After(old(userData), uid, st) && pendingPurges == Scheduled(old(pendingPurges), uid, st)
    {
      if uid !in userData {
        return End;
      }
      userData := userData[uid := userData[uid].(title := None)];
      userData := userData[uid := userData[uid].(tag := RowsInput)];
      reply := Goto(RowsState);
    }

    /** `get_title` on the message text. */
    method GetTitle(uid: int, text: string) returns (reply: Reply)
      modifies this
      ensures var st := TitleStep(At(old(userData), uid), text);
        reply == st.reply && userData == After(old(userData), uid, st) && pendingPurges == Scheduled(old(pendingPurges), uid, st)
    {
      if uid !in userData {
        return Raised(KeyError);
      }
      var response := PyText.Lower(PyText.Strip(text));
      var record := userData[uid];
      if response == "нет" {
        record := record.(title := None);
      } else {
        record := record.(title := Some(text));
      }
      record := record.(tag := RowsInput);
      userData := userData[uid := record];
      reply := Goto(RowsState);
    }

    /** `get_rows` on the message text. */
    method GetRows(uid: int, text: string) returns (reply: Reply)
      modifies this
      ensures var st := RowsStep(At(old(userData), uid), text);
        reply == st.reply && userData == After(old(userData), uid, st) && pendingPurges == Scheduled(old(pendingPurges), uid, st)
    {
      var parsed := PyText.ParseInt(text);
      reply := ReadRows(uid, parsed);
    }

    /** The rest of `get_rows` once `int(text)` has returned `parsed`. */
    method ReadRows(uid: int, parsed: Option<int>) returns (reply: Reply)
      modifies this
      ensures var st := RowsRead(At(old(userData), uid), parsed);
        reply == st.reply && userData == After(old(userData), uid, st) && pendingPurges == Scheduled(old(pendingPurges), uid, st)
    {
      if parsed.None? || parsed.value <= 0 {
        return Goto(RowsState);
      }
      var rows := parsed.value;
      if uid !in userData {
        return Raised(KeyError);
      }
      userData := userData[uid := userData[uid].(rows := Some(rows))];
      userData := userData[uid := userData[uid].(tag := ColsInput)];
      reply := Goto(ColsState);
    }

    /** `get_cols` on the message text. */
    method GetCols(uid: int, text: string) returns (reply: Reply)
      modifies this
      ensures var st := ColsStep(At(old(userData), uid), text, config.maxPhotos);
        reply == st.reply && userData == After(old(userData), uid, st) && pendingPurges == Scheduled(old(pendingPurges), uid, st)
    {
      var parsed := PyText.ParseInt(text);
      reply := ReadCols(uid, parsed);
    }

    /** The rest of `get_cols` once `int(text)` has returned `parsed`. */
    method ReadCols(uid: int, parsed: Option<int>) returns (reply: Reply)
      modifies this
      ensures var st := ColsRead(At(old(userData), uid), parsed, config.maxPhotos);
        reply == st.reply && userData == After(old(userData), uid, st) && pendingPurges == Scheduled(old(pendingPurges), uid, st)
    {
      if parsed.None? || parsed.value <= 0 {
        return Goto(ColsState);
      }
      var cols := parsed.value;
      if uid !in userData {
        return Raised(KeyError);
      }
      var rows := userData[uid].rows;
      if rows.None? {
        return Raised(TypeError);
      }
      var perPage := rows.value * cols;
      if perPage > config.maxPhotos {
        return Goto(ColsState);
      }
      userData := userData[uid := userData[uid].(cols := Some(cols))];
      userData := userData[uid := userData[uid].(tag := SizeSelection)];
      reply := Goto(SizeState);
    }

    /** `size_option` on the callback data. */
    method SizeOption(uid: int, data: string) returns (reply: Reply)
      modifies this
      ensures var st := SizeStep(At(old(userData), uid), data);
        reply == st.reply && userData == After(old(userData), uid, st) && pendingPurges == Scheduled(old(pendingPurges), uid, st)
    {
      var key := PyText.RemoveSizePrefixes(data);
      if uid !in userData {
        return Raised(KeyError);
      }
      userData := userData[uid := userData[uid].(sizeOption := Some(key))];
      userData := userData[uid := userData[uid].(tag := UploadPhotos)];
      reply := Goto(PhotosState);
    }

    /** `get_photo`. */
    method GetPhoto(uid: int, msg: Message) returns (reply: Reply)
      modifies this
      ensures var st := PhotoStep(At(old(userData), uid), msg, config, codec);
        reply == st.reply && userData == After(old(userData), uid, st) && pendingPurges == Scheduled(old(pendingPurges), uid, st)
    {
      if uid !in userData {
        return End;
      }
      var upload := Upload(msg);
      if upload.None? || upload.value == [] {
        return Goto(PhotosState);
      }
      var compressed := Images.CompressImage(codec, upload.value, config.imageQuality, config.imageMaxSize);
      userData := userData[uid := userData[uid].(photos := userData[uid].photos + [compressed])];
      reply := Goto(PhotosState);
    }

    /** `back_command`. */
    method BackCommand(uid: int) returns (reply: Reply)
      modifies this
      ensures var st := BackStep(At(old(userData), uid));
        reply == st.reply && userData == After(old(userData), uid, st) && pendingPurges == Scheduled(old(pendingPurges), uid, st)
    {
      if uid !in userData {
        return End;
      }
      var s := userData[uid];
      if s.tag == UploadPhotos && s.photos != [] {
        return Goto(ConfirmBackState);
      } else if s.tag == UploadPhotos {
        if s.rows.None? || s.cols.None? {
          return Raised(TypeError);
        }
        userData := userData[uid := s.(tag := SizeSelection)];
        reply := Goto(SizeState);
      } else if s.tag == SizeSelection {
        userData := userData[uid := s.(tag := ColsInput)];
        reply := Goto(ColsState);
      } else if s.tag == ColsInput {
        userData := userData[uid := s.(tag := RowsInput)];
        reply := Goto(RowsState);
      } else {
        userData := userData[uid := s.(tag := TitleTag)];
        reply := Goto(TitleState);
      }
    }

    /** `handle_confirm_back` on the message text. */
    method HandleConfirmBack(uid: int, text: string) returns (reply: Reply)
      modifies this
      ensures var st := ConfirmBackStep(At(old(userData), uid), text);
        reply == st.reply && userData == After(old(userData), uid, st) && pendingPurges == Scheduled(old(pendingPurges), uid, st)
    {
      var lowered := PyText.Lower(text);
      if lowered in {"да", "yes", "ок", "окей", "вернуться"} {
        if uid in userData {
          userData := userData[uid := userData[uid].(photos := [])];
          var s := userData[uid];
          if s.sizeOption.Some? && s.sizeOption.value != "" {
            if s.rows.None? || s.cols.None? {
              return Raised(TypeError);
            }
            userData := userData[uid := s.(tag := SizeSelection)];
            return Goto(SizeState);
          } else {
            userData := userData[uid := s.(tag := TitleTag)];
            return Goto(TitleState);
          }
        }
        reply := Stay;
      } else {
        reply := Raised(UnboundLocalError);
      }
    }

    /** `done_command`. */
    method DoneCommand(uid: int) returns (reply: Reply)
      modifies this
      ensures var st := DoneStep(At(old(userData), uid));
        reply == st.reply && userData == After(old(userData), uid, st) && pendingPurges == Scheduled(old(pendingPurges), uid, st)
    {
      if uid !in userData {
        return End;
      }
      var s := userData[uid];
      if |s.photos| == 0 {
        return Goto(PhotosState);
      }
      var info := PagesInfoOf(|s.photos|, s.rows, s.cols);
      if info.Failure? {
        return Raised(info.error);
      }
      userData := userData[uid := s.(tag := Confirmation)];
      reply := Goto(ConfirmState);
    }

    /** `_create_and_send_document(user_id)`. */
    method CreateAndSendDocument(uid: int) returns (outcome: SendOutcome)
      modifies this
      ensures uid !in old(userData) ==> outcome == NoSession
      ensures uid in old(userData) ==> outcome == SendOutcomeOf(old(userData)[uid])
      ensures outcome.Failed? ==>
        userData == old(userData)[uid := old(userData)[uid].(photos := [])] && pendingPurges == old(pendingPurges) + multiset{uid}
      ensures !outcome.Failed? ==> userData == old(userData) && pendingPurges == old(pendingPurges)
    {
      if uid !in userData {
        return NoSession;
      }
      var s := userData[uid];
      var info := PagesInfoOf(|s.photos|, s.rows, s.cols);
      if info.Failure? {
        CleanupUserData(uid);
        return Failed(info.error);
      }
      if |s.photos| > ClassMaxPhotos {
        return TooManyPhotos;
      }
      // `DocumentCreator` has no `create_multi_page_document`.
      CleanupUserData(uid);
      outcome := Failed(AttributeError);
    }

    /** `handle_confirm_yes`. */
    method HandleConfirmYes(uid: int) returns (reply: Reply)
      modifies this
      ensures var st := ConfirmYesStep(At(old(userData), uid));
        reply == st.reply && userData == After(old(userData), uid, st) && pendingPurges == Scheduled(old(pendingPurges), uid, st)
    {
      if uid !in userData {
        return End;
      }
      var _ := CreateAndSendDocument(uid);
      reply := End;
    }

    /** `handle_confirm_no`. */
    method HandleConfirmNo(uid: int) returns (reply: Reply)
      modifies this
      ensures var st := DiscardStep(At(old(userData), uid));
        reply == st.reply && userData == After(old(userData), uid, st) && pendingPurges == Scheduled(old(pendingPurges), uid, st)
    {
      CleanupUserData(uid);
      reply := End;
    }

    /** `cancel`. */
    method Cancel(uid: int) returns (reply: Reply)
      modifies this
      ensures var st := DiscardStep(At(old(userData), uid));
        reply == st.reply && userData == After(old(userData), uid, st) && pendingPurges == Scheduled(old(pendingPurges), uid, st)
    {
      CleanupUserData(uid);
      reply := End;
    }

    /** `cleanup_command`. */
    method CleanupCommand(uid: int) returns (reply: Reply)
      modifies this
      ensures var st := CleanupCommandStep(At(old(userData), uid));
        reply == st.reply && userData == After(old(userData), uid, st) && pendingPurges == Scheduled(old(pendingPurges), uid, st)
    {
      if uid in userData {
        userData := userData[uid := userData[uid].(photos := [])];
      }
      reply := Stay;
    }

    /** `status_command`: it changes nothing, and raises where the record's
        page capacity cannot be computed. */
    method StatusCommand(uid: int) returns (reply: Reply)
      ensures reply == StatusStep(At(userData, uid)).reply
    {
      if uid in userData && userData[uid].tag == UploadPhotos {
        var s := userData[uid];
        if s.rows.None? || s.cols.None? {
          reply := Raised(TypeError);
        } else if s.rows.value * s.cols.value == 0 {
          reply := Raised(ZeroDivisionError);
        } else {
          reply := Stay;
        }
      } else {
        reply := Stay;
      }
    }

    /** `handle_conversation_buttons` on the message text at time `now`. */
    method HandleConversationButtons(uid: int, text: string, now: int) returns (reply: Reply)
      modifies this
      ensures var st := ButtonStep(At(old(userData), uid), text, now);
        reply == st.reply && userData == After(old(userData), uid, st) && pendingPurges == Scheduled(old(pendingPurges), uid, st)
    {
      if text == StartButton {
        reply := Start(uid, now);
      } else if text == BackButton {
        reply := BackCommand(uid);
      } else if text == DoneButton {
        reply := DoneCommand(uid);
      } else if text == ClearButton {
        reply := CleanupCommand(uid);
      } else if text == StatusButton {
        reply := StatusCommand(uid);
      } else if text == HelpButton {
        reply := Stay;
      } else if text == NoTitleButton {
        reply := HandleNoTitle(uid);
      } else if text == YesButton {
        reply := HandleConfirmYes(uid);
      } else if text == NoButton {
        reply := HandleConfirmNo(uid);
      } else {
        reply := Stay;
      }
    }

    /** `periodic_cleanup` at time `now`: every session older than
        `session_timeout` is cleaned up; the others are not touched. */
    method PeriodicCleanup(now: int)
      modifies this
      ensures var expired := Expired(old(userData), now, config.sessionTimeout);
        && userData == ClearPhotos(old(userData), expired)
        && pendingPurges == old(pendingPurges) + multiset(expired)
    {
      var usersToClean := Expired(userData, now, config.sessionTimeout);
      var pending := usersToClean;
      ghost var done: set<int> := {};
      while pending != {}
        invariant done !! pending && done + pending == usersToClean
        invariant userData == ClearPhotos(old(userData), done)
        invariant pendingPurges == old(pendingPurges) + multiset(done)
        decreases |pending|
      {
        var u := Pick(pending);
        ClearOneMore(old(userData), done, u);
        MoveOne(done, pending, u);
        CleanupUserData(u);
        done := done + {u};
        pending := pending - {u};
      }
    }
  }

  /** Moving one user from the pending set to the done set keeps the two
      disjoint and their union unchanged. */
  lemma MoveOne(done: set<int>, pending: set<int>, u: int)
    requires done !! pending && u in pending
    ensures (done + {u}) !! (pending - {u})
    ensures (done + {u}) + (pending - {u}) == done + pending
  {
  }

  /** Some member of a non-empty set, in no particular order. */
  method Pick(users: set<int>) returns (u: int)
    requires users != {}
    ensures u in users
  {
    NonEmptyHasMember(users);
    u :| u in users;
  }

  lemma NonEmptyHasMember(users: set<int>)
    requires users != {}
    ensures exists u :: u in users
  {
    if forall u :: u !in users {
      assert false;
    }
  }

  /** Cleaning one more expired user extends the cleared set by that user. */
  lemma ClearOneMore(m: map<int, Session>, done: set<int>, u: int)
    requires u in m && u !in done
    ensures var c := ClearPhotos(m, done);
      && u in c
      && c[u := c[u].(photos := [])] == ClearPhotos(m, done + {u})
      && multiset(done + {u}) == multiset(done) + multiset{u}
  {
  }

  // ------------------------------------------------------------ properties

  /** The answers that mean "no title": once stripped, exactly the three
      letters н, е, т, each in either case. Every other text, a padded or
      differently spelled one included, becomes the title verbatim. */
  lemma SaysNoExactly(text: string)
    ensures SaysNo(text) <==>
      var a := PyText.Strip(text);
      |a| == 3 && forall i :: 0 <= i < 3 ==> a[i] == "нет"[i] || a[i] == PyText.UpperChar("нет"[i])
  {
    var a := PyText.Strip(text);
    var low := PyText.Lower(a);
    forall i | 0 <= i < |a| && i < 3
      ensures low[i] == "нет"[i] <==> a[i] == "нет"[i] || a[i] == PyText.UpperChar("нет"[i])
    {
      PyText.LowerPreimage(a[i], "нет"[i]);
    }
    if |a| == 3 && forall i :: 0 <= i < 3 ==> low[i] == "нет"[i] {
      assert low == "нет";
    }
  }

  /** Any capitalisation of "нет", with spaces around it, means no title. */
  lemma PaddedNoMeansNoTitle(s: Session, word: string)
    requires |word| > 0 && !PyText.IsSpace(word[0]) && !PyText.IsSpace(word[|word| - 1])
    requires PyText.Lower(word) == "нет"
    ensures TitleStep(Some(s), " " + word + " ").record == Some(s.(title := None, tag := RowsInput))
  {
    PyText.StripIgnoresPadding(word, PyText.StrSpace);
  }

  /** `get_rows` keeps the record and stays in ROWS on anything that is not
      a positive integer. */
  lemma RowsRejected(rec: Option<Session>, text: string)
    requires PositiveInt(text).None?
    ensures RowsStep(rec, text) == Step(Goto(RowsState), rec, false)
  {
  }

  /** Every positive number typed as `str(n)` is stored, including one above
      `max_rows`, and the dialogue moves on to the columns. */
  lemma RowsAccepted(s: Session, n: int)
    requires n > 0
    ensures RowsStep(Some(s), PyText.Decimal(n)) == Step(Goto(ColsState), Some(s.(rows := Some(n), tag := ColsInput)), false)
  {
    PyText.ParseIntRoundTrip(n);
  }

  /** `get_cols` stores the columns exactly when the page `rows * cols`
      fits `max_photos`; otherwise nothing changes and it stays in COLS. */
  lemma ColsLimit(s: Session, n: int, maxPhotos: int)
    requires n > 0 && s.rows.Some?
    ensures var st := ColsStep(Some(s), PyText.Decimal(n), maxPhotos);
      && (s.rows.value * n > maxPhotos ==> st == Step(Goto(ColsState), Some(s), false))
      && (s.rows.value * n <= maxPhotos ==> st == Step(Goto(SizeState), Some(s.(cols := Some(n), tag := SizeSelection)), false))
  {
    PyText.ParseIntRoundTrip(n);
  }

  /** `get_photo` appends exactly one stored photo, never larger than the
      upload, for a non-empty photo or image document, and otherwise keeps
      the photos; with a session it always stays in PHOTOS. */
  lemma PhotoAppended(s: Session, msg: Message, cfg: Config, codec: Images.Codec)
    ensures var st := PhotoStep(Some(s), msg, cfg, codec);
      && st.reply == Goto(PhotosState) && !st.purge && st.record.Some?
      && (Upload(msg).None? || Upload(msg) == Some([]) ==> st.record == Some(s))
      && (Upload(msg).Some? && Upload(msg) != Some([]) ==>
            && st.record.value.(photos := s.photos) == s
            && |st.record.value.photos| == |s.photos| + 1
            && st.record.value.photos[..|s.photos|] == s.photos
            && |st.record.value.photos[|s.photos|]| <= |Upload(msg).value|)
  {
    var st := PhotoStep(Some(s), msg, cfg, codec);
    if Upload(msg).Some? && Upload(msg) != Some([]) {
      var b := Upload(msg).value;
      Images.CompressedNeverGrows(codec, b, cfg.imageQuality, cfg.imageMaxSize);
      assert st.record.value.photos == s.photos + [Images.Compressed(codec, b, cfg.imageQuality, cfg.imageMaxSize)];
    }
  }

  /** A document whose MIME type names no image adds nothing. */
  lemma NonImageDocumentIgnored(s: Session, mime: string, d: Option<Bytes>, cfg: Config, codec: Images.Codec)
    requires !PyText.Contains(mime, "image")
    ensures PhotoStep(Some(s), DocumentMsg(Some(mime), d), cfg, codec) == Step(Goto(PhotosState), Some(s), false)
  {
  }

  /** Going back from each step of the dialogue returns to the one before
      it, except from the confirmation, which goes back to the title. */
  lemma BackUndoesForward(t: Tag)
    ensures t != TitleTag && t != Confirmation ==> BackTag(t) != t && NextTag(BackTag(t)) == t
    ensures BackTag(Confirmation) == TitleTag && BackTag(TitleTag) == TitleTag
  {
  }

  /** `back_command` changes at most the tag: title, grid, size and photos
      are kept. With photos uploaded it asks for confirmation, so the
      conversation state (CONFIRM_BACK) and the tag ('upload_photos') part. */
  lemma BackChangesOnlyTag(s: Session)
    ensures var st := BackStep(Some(s));
      && st.record.Some? && st.record.value.(tag := s.tag) == s && !st.purge
      && (s.tag == UploadPhotos && s.photos != [] ==>
            st.reply == Goto(ConfirmBackState) && st.record.value.tag == UploadPhotos)
      && (st.reply.Goto? && st.reply.state != ConfirmBackState ==>
            st.record.value.tag == BackTag(s.tag) && st.reply.state == StateOf(BackTag(s.tag)))
  {
  }

  /** Going back with photos and confirming is going back without them:
      the photos are dropped and, once a size was chosen, the dialogue lands
      exactly where `back` lands from the upload stage with no photos (the
      size choice, or the TypeError of a record without a grid). Without a
      size it restarts at the title. A reply that is not affirmative raises
      and changes nothing. */
  lemma ConfirmBackIsBackWithoutPhotos(s: Session, text: string)
    requires s.tag == UploadPhotos && s.photos != []
    ensures BackStep(Some(s)) == Step(Goto(ConfirmBackState), Some(s), false)
    ensures Affirmative(text) && Truthy(s.sizeOption) ==>
      ConfirmBackStep(Some(s), text) == BackStep(Some(s.(photos := [])))
    ensures Affirmative(text) && !Truthy(s.sizeOption) ==>
      ConfirmBackStep(Some(s), text) == Step(Goto(TitleState), Some(s.(photos := [], tag := TitleTag)), false)
    ensures !Affirmative(text) ==> ConfirmBackStep(Some(s), text) == Step(Raised(UnboundLocalError), Some(s), false)
  {
  }

  /** `done_command` with no photos stays in PHOTOS and changes nothing;
      with photos on a valid grid it moves to the confirmation. */
  lemma DoneOutcome(s: Session)
    ensures |s.photos| == 0 ==> DoneStep(Some(s)) == Step(Goto(PhotosState), Some(s), false)
    ensures |s.photos| > 0 && s.rows.Some? && s.cols.Some? && s.rows.value * s.cols.value != 0 ==>
      DoneStep(Some(s)) == Step(Goto(ConfirmState), Some(s.(tag := Confirmation)), false)
  {
  }

  /** Confirming never produces a document: on a valid grid with at most
      100 photos the missing `create_multi_page_document` raises and the
      session is cleaned up; above 100 photos the handler returns early and
      the session, photos included, is left as it was. */
  lemma ConfirmYesOutcome(s: Session, r: int, c: int)
    requires s.rows == Some(r) && s.cols == Some(c) && r * c != 0
    ensures |s.photos| <= ClassMaxPhotos ==>
      SendOutcomeOf(s) == Failed(AttributeError) && ConfirmYesStep(Some(s)) == Step(End, Some(s.(photos := [])), true)
    ensures |s.photos| > ClassMaxPhotos ==>
      SendOutcomeOf(s) == TooManyPhotos && ConfirmYesStep(Some(s)) == Step(End, Some(s), false)
  {
  }

  /** Cleaning up keeps the record (photos emptied) and schedules its purge. */
  lemma CleanupKeepsRecord(m: map<int, Session>, purges: multiset<int>, uid: int)
    requires uid in m
    ensures var st := DiscardStep(At(m, uid));
      && uid in After(m, uid, st) && After(m, uid, st)[uid] == m[uid].(photos := [])
      && Scheduled(purges, uid, st)[uid] == purges[uid] + 1
  {
  }

  /** What the forward dialogue guarantees of a record: stored grid sizes
      are positive, the rows are known from the column step on, and the
      columns from the size step on. */
  predicate Consistent(s: Session) {
    && (s.rows.Some? ==> s.rows.value > 0)
    && (s.cols.Some? ==> s.cols.value > 0)
    && (s.tag != TitleTag && s.tag != RowsInput ==> s.rows.Some?)
    && (s.tag != TitleTag && s.tag != RowsInput && s.tag != ColsInput ==> s.cols.Some?)
  }

  /** A step keeps the invariant when the record it leaves, if any, satisfies it. */
  predicate KeepsConsistent(st: Step) {
    st.record.Some? ==> Consistent(st.record.value)
  }

  /** Every handler but `size_option` keeps the invariant, whatever its
      input: first the commands and the handlers without input. */
  lemma CommandsKeepConsistent(rec: Option<Session>, now: int)
    requires rec.Some? ==> Consistent(rec.value)
    ensures KeepsConsistent(StartStep(rec, now)) && KeepsConsistent(NoTitleStep(rec))
    ensures KeepsConsistent(BackStep(rec)) && KeepsConsistent(DoneStep(rec))
    ensures KeepsConsistent(ConfirmYesStep(rec))
    ensures KeepsConsistent(DiscardStep(rec)) && KeepsConsistent(CleanupCommandStep(rec))
  {
  }

  /** The handlers that read a typed answer: the title ... */
  lemma TitleKeepsConsistent(rec: Option<Session>, text: string)
    requires rec.Some? ==> Consistent(rec.value)
    ensures KeepsConsistent(TitleStep(rec, text))
  {
    var no := SaysNo(text);
    if rec.Some? {
      var s := rec.value;
      assert TitleStep(rec, text).record == Some(s.(title := if no then None else Some(text), tag := RowsInput));
    }
  }

  /** ... and the confirmation of going back. */
  lemma ConfirmBackKeepsConsistent(rec: Option<Session>, text: string)
    requires rec.Some? ==> Consistent(rec.value)
    ensures KeepsConsistent(ConfirmBackStep(rec, text))
  {
  }

  /** The reply-keyboard buttons, which call the command handlers. */
  lemma ButtonsKeepConsistent(rec: Option<Session>, text: string, now: int)
    requires rec.Some? ==> Consistent(rec.value)
    ensures KeepsConsistent(ButtonStep(rec, text, now))
  {
    CommandsKeepConsistent(rec, now);
  }

  /** `get_photo`. */
  lemma PhotoKeepsConsistent(rec: Option<Session>, msg: Message, cfg: Config, codec: Images.Codec)
    requires rec.Some? ==> Consistent(rec.value)
    ensures KeepsConsistent(PhotoStep(rec, msg, cfg, codec))
  {
  }

  /** `get_rows` and `get_cols` keep the invariant whatever `int(text)`
      returned, so on every text. */
  lemma ReadsKeepConsistent(rec: Option<Session>, parsed: Option<int>, maxPhotos: int)
    requires rec.Some? ==> Consistent(rec.value)
    ensures KeepsConsistent(RowsRead(rec, parsed)) && KeepsConsistent(ColsRead(rec, parsed, maxPhotos))
  {
  }

  /** `size_option` keeps the invariant only on a record whose grid is
      complete, as it is from the size step on. */
  lemma SizeKeepsConsistent(s: Session, data: string)
    requires Consistent(s) && s.rows.Some? && s.cols.Some?
    ensures KeepsConsistent(SizeStep(Some(s), data))
  {
  }

  /** On a consistent record at the upload or confirmation stage, `back`,
      `done` and the back confirmation never raise TypeError or
      ZeroDivisionError, and sending fails only on the missing
      `create_multi_page_document` or stops at the photo limit. */
  lemma ConsistentNeverTypeError(s: Session, text: string)
    requires Consistent(s) && (s.tag == UploadPhotos || s.tag == Confirmation)
    ensures !BackStep(Some(s)).reply.Raised?
    ensures !DoneStep(Some(s)).reply.Raised?
    ensures ConfirmBackStep(Some(s), text).reply.Raised? ==> !Affirmative(text)
    ensures !StatusStep(Some(s)).reply.Raised?
    ensures SendOutcomeOf(s) == Failed(AttributeError) || SendOutcomeOf(s) == TooManyPhotos
  {
    var r := s.rows.value;
    var c := s.cols.value;
    assert r * c > 0 by { PositiveProduct(r, c); }
  }

  lemma PositiveProduct(a: int, b: int)
    requires a > 0 && b > 0
    ensures a * b > 0
  {
  }

  /** `size_option` stores the size whatever the record holds. On a fresh
      record (no grid yet) the tag becomes 'upload_photos', the invariant
      breaks, and `back` and the status button then raise TypeError on
      `rows * cols`. */
  lemma SizeWithoutGridBreaks(now: int, data: string)
    ensures var st := SizeStep(Some(FreshSession(now)), data);
      && st.record.Some? && !Consistent(st.record.value)
      && BackStep(st.record) == Step(Raised(TypeError), st.record, false)
      && ButtonStep(st.record, StatusButton, now) == Step(Raised(TypeError), st.record, false)
  {
  }

  /** The status button changes no record, and raises exactly on an
      'upload_photos' record whose page capacity is missing or zero. */
  lemma StatusRaisesExactly(rec: Option<Session>, now: int)
    ensures var st := ButtonStep(rec, StatusButton, now);
      && st.record == rec && !st.purge
      && (st.reply.Raised? <==>
            (rec.Some? && rec.value.tag == UploadPhotos
             && (rec.value.rows.None? || rec.value.cols.None? || rec.value.rows.value * rec.value.cols.value == 0)))
  {
  }

  /** `get_rows` reads the decimal digits of every script: "５" or "٣" are
      stored as 5 and 3. */
  lemma RowsAcceptScriptDigits(s: Session, digits: string)
    requires |digits| > 0 && forall i :: 0 <= i < |digits| ==> PyText.DecimalDigit(digits[i]).Some?
    requires PyText.ScriptValue(digits) > 0
    ensures RowsStep(Some(s), digits)
      == Step(Goto(ColsState), Some(s.(rows := Some(PyText.ScriptValue(digits)), tag := ColsInput)), false)
  {
    PyText.ParseIntOfScriptDigits(digits);
  }

  /** The full-width digit five is read as 5. */
  lemma FullWidthFive()
    ensures PositiveInt("\U{FF15}") == Some(5)
  {
    PyText.ParseIntOfScriptDigits("\U{FF15}");
  }

  /** A restart does not cancel the purge an earlier cleanup scheduled:
      when that purge fires it deletes the new session. */
  method StalePurgeEndsNewSession(h: BotHandlers, uid: int, now: int)
    requires uid in h.userData
    modifies h
    ensures uid !in h.userData
  {
    var _ := h.Start(uid, now);
    assert uid in h.pendingPurges;
    h.DelayedCleanup(uid);
  }
}
