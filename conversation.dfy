/** The dialogue table of `get_conversation_handler`: which handler an
    update reaches in each conversation state, and the state the reply
    leads to. The dispatch rule is python-telegram-bot's: with
    `allow_reentry`, the entry points are tried first, then the handlers of
    the current state in order, then the fallbacks; the first whose filter
    accepts the update wins. */
module Conversation {
  import opened Common
  import PyText
  import Handlers

  /** An update as the filters see it. A command is a text message that
      opens with a bot command: '/' and a command name. */
  datatype Update =
    | Text(text: string)
    | Callback(data: string)
    | Photo(download: Option<Bytes>)
    | Document(mime: Option<string>, download: Option<Bytes>)

  /** The handler method an update is delivered to. */
  datatype Target =
    | GetTitle | GetRows | GetCols | SizeOption | GetPhoto | ConversationButtons
    | ConfirmBack | Start | Cancel

  /** The filters used in the table. */
  datatype Filter =
    | TextNoCommand                 // filters.TEXT & ~filters.COMMAND
    | TextRegex(options: set<string>) // filters.TEXT & filters.Regex(r'^(a|b|…)$')
    | AnyText                       // filters.TEXT
    | CallbackPrefix(prefix: string) // CallbackQueryHandler(pattern='^prefix')
    | Media                         // filters.PHOTO | filters.Document.IMAGE
    | Command(name: string)         // CommandHandler(name)

  datatype Rule = Rule(filter: Filter, target: Target)

  /** A character Telegram allows in a command name. */
  predicate CommandChar(c: char) {
    'a' <= c <= 'z' || 'A' <= c <= 'Z' || '0' <= c <= '9' || c == '_'
  }

  /** The command characters `s` opens with: the name of a command written
      right after its '/'. */
  function CommandWord(s: string): (w: string)
    ensures |w| <= |s| && w == s[..|w|]
    ensures forall i :: 0 <= i < |w| ==> CommandChar(w[i])
    ensures |w| < |s| ==> !CommandChar(s[|w|])
  {
    if |s| > 0 && CommandChar(s[0]) then
      var rest := CommandWord(s[1..]);
      assert [s[0]] + rest == s[..|rest| + 1];
      [s[0]] + rest
    else []
  }

  /** `filters.COMMAND`: the message opens with a bot command entity, which
      Telegram marks on '/' followed by a command name. */
  predicate IsCommand(text: string) {
    |text| > 1 && text[0] == '/' && CommandChar(text[1])
  }

  /** `re.search(r'^(a|b|…)$', text)`: `$` also matches just before a final
      newline. */
  predicate RegexAlternatives(options: set<string>, text: string) {
    text in options || (|text| > 0 && text[|text| - 1] == '\n' && text[..|text| - 1] in options)
  }

  /** `CommandHandler(name)`: the message opens with a bot command whose
      name, lower-cased, is `name`; whatever follows the name (an argument,
      a newline, `@` and a bot name) does not matter. */
  predicate IsCommandNamed(text: string, name: string) {
    IsCommand(text) && PyText.Lower(CommandWord(text[1..])) == name
  }

  predicate Matches(f: Filter, u: Update) {
    match f
    case TextNoCommand => u.Text? && !IsCommand(u.text)
    case TextRegex(options) => u.Text? && RegexAlternatives(options, u.text)
    case AnyText => u.Text?
    case CallbackPrefix(p) => u.Callback? && PyText.StartsWith(u.data, p)
    case Media => u.Photo? || (u.Document? && u.mime.Some? && PyText.StartsWith(u.mime.value, "image/"))
    case Command(name) => u.Text? && IsCommandNamed(u.text, name)
  }

  /** The target of the first rule whose filter accepts `u`. */
  function FirstMatch(rules: seq<Rule>, u: Update): Option<Target> {
    if rules == [] then None
    else if Matches(rules[0].filter, u) then Some(rules[0].target)
    else FirstMatch(rules[1..], u)
  }

  /** First-match dispatch: the chosen rule accepts the update and every
      earlier one rejects it; no target at all means no rule accepts it. */
  lemma {:induction false} FirstMatchIsFirst(rules: seq<Rule>, u: Update)
    ensures FirstMatch(rules, u).None? <==> forall i :: 0 <= i < |rules| ==> !Matches(rules[i].filter, u)
    ensures FirstMatch(rules, u).Some? ==>
      exists i :: (0 <= i < |rules| && Matches(rules[i].filter, u)
        && rules[i].target == FirstMatch(rules, u).value
        && forall j :: 0 <= j < i ==> !Matches(rules[j].filter, u))
  {
    if rules != [] && !Matches(rules[0].filter, u) {
      FirstMatchIsFirst(rules[1..], u);
      if FirstMatch(rules[1..], u).Some? {
        var i :| 0 <= i < |rules[1..]| && Matches(rules[1..][i].filter, u)
          && rules[1..][i].target == FirstMatch(rules[1..], u).value
          && forall j :: 0 <= j < i ==> !Matches(rules[1..][j].filter, u);
        assert rules[i + 1] == rules[1..][i];
        forall j | 0 <= j < i + 1 ensures !Matches(rules[j].filter, u) {
          if j > 0 { assert rules[j] == rules[1..][j - 1]; }
        }
      } else {
        forall i | 0 <= i < |rules| ensures !Matches(rules[i].filter, u) {
          if i > 0 { assert rules[i] == rules[1..][i - 1]; }
        }
      }
    }
  }

  const EntryPoints: seq<Rule> := [Rule(Command("start"), Start)]

  const Fallbacks: seq<Rule> := [
    Rule(Command("cancel"), Cancel),
    Rule(Command("start"), Start),
    Rule(TextRegex({Handlers.StartButton}), Start)]

  const NavigationButtons: set<string> := {Handlers.BackButton, Handlers.StatusButton, Handlers.HelpButton}

  /** The handler list of each state. */
  function StateRules(s: Handlers.ConvState): seq<Rule> {
    match s
    case TitleState => [
      Rule(TextNoCommand, GetTitle),
      Rule(TextRegex({Handlers.NoTitleButton, Handlers.BackButton}), ConversationButtons)]
    case RowsState => [Rule(TextNoCommand, GetRows), Rule(TextRegex(NavigationButtons), ConversationButtons)]
    case ColsState => [Rule(TextNoCommand, GetCols), Rule(TextRegex(NavigationButtons), ConversationButtons)]
    case SizeState => [Rule(CallbackPrefix("size_"), SizeOption), Rule(TextRegex(NavigationButtons), ConversationButtons)]
    case PhotosState => [
      Rule(Media, GetPhoto),
      Rule(TextRegex({Handlers.DoneButton, Handlers.BackButton, Handlers.ClearButton,
                      Handlers.StatusButton, Handlers.HelpButton}), ConversationButtons)]
    case ConfirmState => [
      Rule(TextRegex({Handlers.YesButton, Handlers.NoButton, Handlers.BackButton,
                      Handlers.StatusButton, Handlers.HelpButton}), ConversationButtons)]
    case ConfirmBackState => [Rule(AnyText, ConfirmBack)]
  }

  /** The handler an update reaches in conversation state `state` (`None`:
      outside the conversation); `None` when the conversation ignores it. */
  function Route(state: Option<Handlers.ConvState>, u: Update): (t: Option<Target>)
    ensures state.None? ==> t == FirstMatch(EntryPoints, u)
  {
    match FirstMatch(EntryPoints, u)
    case Some(t) => Some(t)
    case None =>
      if state.None? then None
      else
        match FirstMatch(StateRules(state.value), u)
        case Some(t) => Some(t)
        case None => FirstMatch(Fallbacks, u)
  }

  /** The state after a handler's reply: a new state, `END` leaves the
      conversation, `None` keeps the state, and an exception leaves it as
      it was. */
  function NextState(state: Option<Handlers.ConvState>, r: Handlers.Reply): Option<Handlers.ConvState> {
    match r
    case Goto(s) => Some(s)
    case End => None
    case Stay => state
    case Raised(_) => state
  }

  function AsMessage(u: Update): Handlers.Message {
    match u
    case Photo(d) => Handlers.PhotoMsg(d)
    case Document(mime, d) => Handlers.DocumentMsg(mime, d)
    case _ => Handlers.NoMedia
  }

  function TextOf(u: Update): string {
    match u
    case Text(t) => t
    case Callback(d) => d
    case _ => ""
  }

  /** What the chosen handler does to the user's record. */
  function Handle(t: Target, u: Update, rec: Option<Handlers.Session>, now: int,
                  cfg: Handlers.Config, codec: Handlers.Images.Codec): Handlers.Step {
    match t
    case GetTitle => Handlers.TitleStep(rec, TextOf(u))
    case GetRows => Handlers.RowsStep(rec, TextOf(u))
    case GetCols => Handlers.ColsStep(rec, TextOf(u), cfg.maxPhotos)
    case SizeOption => Handlers.SizeStep(rec, TextOf(u))
    case GetPhoto => Handlers.PhotoStep(rec, AsMessage(u), cfg, codec)
    case ConversationButtons => Handlers.ButtonStep(rec, TextOf(u), now)
    case ConfirmBack => Handlers.ConfirmBackStep(rec, TextOf(u))
    case Start => Handlers.StartStep(rec, now)
    case Cancel => Handlers.DiscardStep(rec)
  }

  /** One update for one user: the conversation state afterwards and the
      handler's step (`None` when the conversation ignores the update). */
  function Deliver(state: Option<Handlers.ConvState>, u: Update, rec: Option<Handlers.Session>, now: int,
                   cfg: Handlers.Config, codec: Handlers.Images.Codec): (Option<Handlers.ConvState>, Option<Handlers.Step>) {
    match Route(state, u)
    case None => (state, None)
    case Some(t) =>
      var st := Handle(t, u, rec, now, cfg, codec);
      (NextState(state, st.reply), Some(st))
  }

  // ------------------------------------------------------------ properties

  /** `CommandHandler(name)` for a lower-case command name: '/', the name
      in any capitalisation, then the end of the text or a character that
      cannot continue a command name. */
  lemma CommandNamedExactly(text: string, name: string)
    requires |name| > 0
    requires forall i :: 0 <= i < |name| ==> CommandChar(name[i]) && !PyText.IsUpper(name[i])
    ensures IsCommandNamed(text, name) <==>
      && |text| > |name| && text[0] == '/'
      && (forall i :: 0 <= i < |name| ==> text[i + 1] == name[i] || text[i + 1] == PyText.UpperChar(name[i]))
      && (|text| == |name| + 1 || !CommandChar(text[|name| + 1]))
  {
    if |text| > 1 {
      var w := CommandWord(text[1..]);
      if IsCommandNamed(text, name) {
        forall i | 0 <= i < |name|
          ensures text[i + 1] == name[i] || text[i + 1] == PyText.UpperChar(name[i])
        {
          assert w[i] == text[i + 1];
          PyText.LowerPreimage(w[i], name[i]);
        }
      }
      if && |text| > |name| && text[0] == '/'
         && (forall i :: 0 <= i < |name| ==> text[i + 1] == name[i] || text[i + 1] == PyText.UpperChar(name[i]))
         && (|text| == |name| + 1 || !CommandChar(text[|name| + 1]))
      {
        var s := text[1..];
        forall i | 0 <= i < |name| ensures CommandChar(s[i]) {
          assert s[i] == text[i + 1];
          assert CommandChar(name[i]);
        }
        assert |s| == |name| || !CommandChar(s[|name|]);
        assert |w| == |name|;
        forall i | 0 <= i < |name| ensures PyText.Lower(w)[i] == name[i] {
          assert w[i] == text[i + 1];
          PyText.LowerPreimage(w[i], name[i]);
        }
        assert PyText.Lower(w) == name;
      }
    }
  }

  /** '/' alone and a Cyrillic word after '/' are no command at all, and a
      longer name is not `/start`. */
  lemma NotCommands()
    ensures !IsCommand("/") && !IsCommand("/привет")
    ensures !IsCommandNamed("/startx", "start")
  {
    CommandNamedExactly("/startx", "start");
  }

  /** A text that opens with no bot command misses the entry point. */
  lemma NotStart(text: string)
    requires !IsCommand(text)
    ensures FirstMatch(EntryPoints, Text(text)).None?
  {
    assert EntryPoints[1..] == [];
  }

  /** In TITLE every text that opens with no bot command is a title, a
      slash before a word Telegram does not take for a command included. */
  lemma TitleTakesNonCommands(text: string)
    requires !IsCommand(text)
    ensures Route(Some(Handlers.TitleState), Text(text)) == Some(GetTitle)
  {
    NotStart(text);
    assert Matches(TextNoCommand, Text(text));
  }

  /** No button label opens with '/', so no command matches a button
      filter. */
  lemma CommandNotButton(options: set<string>, text: string)
    requires |text| > 0 && text[0] == '/'
    requires forall o :: o in options ==> |o| > 0 && o[0] != '/'
    ensures !RegexAlternatives(options, text)
  {
    if |text| > 1 {
      assert text[..|text| - 1][0] == text[0];
    }
  }

  /** `/start`, in any spelling the command handler accepts, restarts
      from any state, in or out of the conversation. */
  lemma StartAlwaysRestarts(state: Option<Handlers.ConvState>, text: string, rec: Option<Handlers.Session>,
                            now: int, cfg: Handlers.Config, codec: Handlers.Images.Codec)
    requires IsCommandNamed(text, "start")
    ensures Deliver(state, Text(text), rec, now, cfg, codec)
      == (Some(Handlers.TitleState), Some(Handlers.StartStep(rec, now)))
  {
    assert Matches(EntryPoints[0].filter, Text(text));
  }

  /** A label without surrounding whitespace and of another length than
      "нет" is not a "нет" answer. */
  lemma TrimmedLabelIsNotNo(t: string)
    requires |t| > 0 && !PyText.IsSpace(t[0]) && !PyText.IsSpace(t[|t| - 1]) && |t| != 3
    ensures !Handlers.SaysNo(t)
  {
    PyText.StripOfTrimmed(t, PyText.StrSpace);
  }

  /** In TITLE the free-text handler comes first, so the "Без заголовка"
      button never reaches `handle_no_title`: its label becomes the title. */
  lemma NoTitleButtonBecomesTitle(s: Handlers.Session, now: int, cfg: Handlers.Config, codec: Handlers.Images.Codec)
    ensures Route(Some(Handlers.TitleState), Text(Handlers.NoTitleButton)) == Some(GetTitle)
    ensures Deliver(Some(Handlers.TitleState), Text(Handlers.NoTitleButton), Some(s), now, cfg, codec)
      == (Some(Handlers.RowsState),
          Some(Handlers.Step(Handlers.Goto(Handlers.RowsState),
            Some(s.(title := Some(Handlers.NoTitleButton), tag := Handlers.RowsInput)), false)))
  {
    var t := Handlers.NoTitleButton;
    TitleTakesNonCommands(t);
    TrimmedLabelIsNotNo(t);
  }

  /** In TITLE every text that is no bot command and not a "нет" answer
      (`SaysNo`) is stored as the title, as typed, and the dialogue moves
      to ROWS. */
  lemma TitleStoresText(s: Handlers.Session, text: string, now: int, cfg: Handlers.Config, codec: Handlers.Images.Codec)
    requires !IsCommand(text) && !Handlers.SaysNo(text)
    ensures Deliver(Some(Handlers.TitleState), Text(text), Some(s), now, cfg, codec)
      == (Some(Handlers.RowsState),
          Some(Handlers.Step(Handlers.Goto(Handlers.RowsState),
            Some(s.(title := Some(text), tag := Handlers.RowsInput)), false)))
  {
    TitleTakesNonCommands(text);
  }

  /** A label that opens with neither whitespace, nor a decimal digit of
      any script, nor a sign is not an integer. */
  lemma TrimmedLabelIsNotNumber(t: string)
    requires |t| > 0 && !PyText.IsSpace(t[0]) && PyText.DecimalDigit(t[0]).None?
    requires t[0] != '-' && t[0] != '+'
    ensures Handlers.PositiveInt(t).None?
  {
    var a := PyText.ToAscii(t);
    assert a[0] == PyText.AsciiForm(t[0]);
    PyText.StripKeepsFirst(a, PyText.AsciiSpace);
  }

  /** In ROWS the free-text handler also comes first: "◀️ Назад" is read as
      a number, rejected, and the dialogue stays in ROWS with the record
      unchanged. */
  lemma BackShadowedInRows(rec: Option<Handlers.Session>, now: int, cfg: Handlers.Config, codec: Handlers.Images.Codec)
    ensures Route(Some(Handlers.RowsState), Text(Handlers.BackButton)) == Some(GetRows)
    ensures Deliver(Some(Handlers.RowsState), Text(Handlers.BackButton), rec, now, cfg, codec)
      == (Some(Handlers.RowsState), Some(Handlers.Step(Handlers.Goto(Handlers.RowsState), rec, false)))
  {
    var t := Handlers.BackButton;
    assert !IsCommand(t);
    RowsRejectWords(t, rec, now, cfg, codec);
  }

  /** In ROWS every text that is no bot command and opens with neither
      whitespace, nor a decimal digit of any script, nor a sign reaches
      `get_rows`, is rejected, and leaves the state and the record as they
      were. */
  lemma RowsRejectWords(text: string, rec: Option<Handlers.Session>, now: int, cfg: Handlers.Config, codec: Handlers.Images.Codec)
    requires !IsCommand(text)
    requires |text| > 0 && !PyText.IsSpace(text[0]) && PyText.DecimalDigit(text[0]).None?
    requires text[0] != '-' && text[0] != '+'
    ensures Route(Some(Handlers.RowsState), Text(text)) == Some(GetRows)
    ensures Deliver(Some(Handlers.RowsState), Text(text), rec, now, cfg, codec)
      == (Some(Handlers.RowsState), Some(Handlers.Step(Handlers.Goto(Handlers.RowsState), rec, false)))
  {
    NotStart(text);
    assert Matches(TextNoCommand, Text(text));
    assert Route(Some(Handlers.RowsState), Text(text)) == Some(GetRows);
    TrimmedLabelIsNotNumber(text);
  }

  /** In CONFIRM_BACK the only handler takes any text, commands included,
      so `/cancel` is read as a "no", raises, and the conversation stays in
      CONFIRM_BACK with the record untouched. */
  lemma CancelInConfirmBackRaises(text: string, rec: Option<Handlers.Session>, now: int,
                                  cfg: Handlers.Config, codec: Handlers.Images.Codec)
    requires IsCommandNamed(text, "cancel")
    ensures Route(Some(Handlers.ConfirmBackState), Text(text)) == Some(ConfirmBack)
    ensures Deliver(Some(Handlers.ConfirmBackState), Text(text), rec, now, cfg, codec)
      == (Some(Handlers.ConfirmBackState), Some(Handlers.Step(Handlers.Raised(UnboundLocalError), rec, false)))
  {
    CancelRoutesToConfirmBack(text);
    SlashNotAffirmative(text);
    assert Handle(ConfirmBack, Text(text), rec, now, cfg, codec)
      == Handlers.Step(Handlers.Raised(UnboundLocalError), rec, false);
  }

  /** In CONFIRM_BACK, `/cancel` falls through the entry point to the
      state's catch-all text handler. */
  lemma CancelRoutesToConfirmBack(text: string)
    requires IsCommandNamed(text, "cancel")
    ensures Route(Some(Handlers.ConfirmBackState), Text(text)) == Some(ConfirmBack)
  {
    assert !Matches(EntryPoints[0].filter, Text(text));
    assert EntryPoints[1..] == [];
    assert FirstMatch(EntryPoints, Text(text)).None?;
    assert Matches(AnyText, Text(text));
  }

  /** A command is never one of the affirmative replies. */
  lemma SlashNotAffirmative(text: string)
    requires |text| > 0 && text[0] == '/'
    ensures !Handlers.Affirmative(text)
  {
    assert PyText.Lower(text)[0] == '/';
  }

  /** Outside CONFIRM_BACK, `/cancel` reaches `cancel` from every state. */
  lemma CancelElsewhere(state: Handlers.ConvState, text: string, rec: Option<Handlers.Session>, now: int,
                        cfg: Handlers.Config, codec: Handlers.Images.Codec)
    requires state != Handlers.ConfirmBackState && IsCommandNamed(text, "cancel")
    ensures Deliver(Some(state), Text(text), rec, now, cfg, codec) == (None, Some(Handlers.DiscardStep(rec)))
  {
    CancelRoutesToCancel(state, text);
  }

  /** Outside CONFIRM_BACK, `/cancel` matches no handler of the state and
      reaches the `cancel` fallback. */
  lemma CancelRoutesToCancel(state: Handlers.ConvState, text: string)
    requires state != Handlers.ConfirmBackState && IsCommandNamed(text, "cancel")
    ensures Route(Some(state), Text(text)) == Some(Cancel)
  {
    var u := Text(text);
    assert !Matches(EntryPoints[0].filter, u);
    assert EntryPoints[1..] == [];
    assert FirstMatch(EntryPoints, u).None?;
    var rules := StateRules(state);
    forall i | 0 <= i < |rules| ensures !Matches(rules[i].filter, u) {
      if rules[i].filter.TextRegex? {
        CommandNotButton(rules[i].filter.options, text);
      }
    }
    FirstMatchIsFirst(rules, u);
    assert Matches(Fallbacks[0].filter, u);
  }

  /** A photo or image document in PHOTOS reaches `get_photo`. */
  lemma PhotoReachesGetPhoto(u: Update)
    requires u.Photo? || (u.Document? && u.mime.Some? && PyText.StartsWith(u.mime.value, "image/"))
    ensures Route(Some(Handlers.PhotosState), u) == Some(GetPhoto)
  {
    assert !Matches(EntryPoints[0].filter, u);
    assert FirstMatch(EntryPoints[1..], u).None?;
    assert Matches(StateRules(Handlers.PhotosState)[0].filter, u);
  }

  /** Outside the conversation only `/start` is handled. */
  lemma OutsideOnlyStart(u: Update)
    ensures Route(None, u).Some? <==> u.Text? && IsCommandNamed(u.text, "start")
  {
    assert EntryPoints[1..] == [];
    assert Matches(EntryPoints[0].filter, u) <==> u.Text? && IsCommandNamed(u.text, "start");
    assert Route(None, u) == FirstMatch(EntryPoints, u);
  }
}
