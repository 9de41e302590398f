# appraiser-photo-bot: a verified model of its core

The photo bot collects a user's photos through a Telegram dialogue: title,
grid rows and columns, photo size, uploads, then confirmation. It lays the
photos out in a Word table, one table per page. This project models the
core of that in Dafny and proves properties of the model:

- **`Handlers`** (`handlers.dfy`) models `BotHandlers`:
  - the per-user session records in `user_data` and every dialogue handler;
  - the delayed purge that `cleanup_user_data` schedules;
  - the periodic sweep of idle sessions.

  Each handler is a `BotHandlers` method. Its contract ties the reply and
  the new `userData` / `pendingPurges` to a pure *step function*, and the
  lemmas state what the dialogue promises about those step functions.
- **`Conversation`** (`conversation.dfy`) models the dispatch table of
  `get_conversation_handler`. For each state it gives the handler an
  update reaches under python-telegram-bot's first-match rule, then the
  state the handler's reply leads to.
- **`Pagination`** (`pagination.dfy`) models `split_into_pages` as a loop
  proved against a chunking function, and `calculate_pages_info` with
  Python's floor division.
- **`Images`** (`images.dfy`) models the decision rule of `compress_image`
  over an abstract image codec: scaling, the candidate encodings, the
  smallest candidate, and the 5 % rule.
- **`Sizes`** (`sizes.dfy`) models the size presets, `calculate_auto_size`
  and `get_size_option_name`.
- **`DocumentBase`** (`layout.dfy`) models the grid placement, the cell
  sizing and `set_table_borders` of `create_single_page_document`. The
  table is a class over two-dimensional arrays.
- **`Creator`** (`creator.dfy`) models `DocumentCreator`: the choice
  between single page, in-memory and staged-file builds, and the fallback
  from memory to file.
- **`TempManager`** (`tempfiles.dfy`) models `TempFileManager` over a
  modelled file system, with the process-wide singleton as an explicit
  slot.
- **`PyText`** (`pytext.dfy`) and **`Common`** (`common.dfy`) hold the
  Python semantics the handlers rely on:
  - `str.strip` with Python's whitespace set;
  - `str.lower` for Latin and Cyrillic;
  - `int()` with signs, padding, digit underscores and the decimal digits
    of every script;
  - substring `in`, and `str.replace(p, '')`;
  - `Option`/`Result`, and the Python exceptions the code can raise.

## Behaviour of the code as written

These facts follow from the code. Each one is stated as a lemma.

- **Title buttons are shadowed.** In the TITLE state the free-text handler
  (`filters.TEXT & ~filters.COMMAND`) is listed before the button handler.
  Pressing "Без заголовка" therefore stores that label as the title
  (`Conversation.NoTitleButtonBecomesTitle`).
- **Back is shadowed in ROWS and COLS.** "◀️ Назад" reaches `get_rows`
  in ROWS. It is rejected as a number, and the dialogue stays in ROWS
  (`Conversation.BackShadowedInRows`).
- **`/cancel` raises in CONFIRM_BACK.** There `filters.TEXT` also accepts
  commands, so `/cancel` reaches `handle_confirm_back` and is read as a
  "no". That branch reads `user_id` before it is assigned and raises
  `UnboundLocalError` (`Conversation.CancelInConfirmBackRaises`). From
  every other state, `/cancel` reaches `cancel`
  (`Conversation.CancelElsewhere`).
- **Back does not move the tag when photos exist.** With photos uploaded,
  `back_command` only asks for confirmation and leaves the tag at
  'upload_photos' (`Handlers.BackChangesOnlyTag`).
- **`get_title` has no session check.** Without a record, its first
  assignment raises `KeyError`.
- **Sending always fails or stops early.** `_create_and_send_document`
  calls `creator.create_multi_page_document`, which `DocumentCreator`
  does not define:
  - Below the photo limit, the call raises `AttributeError`. The generic
    `except` then clears the photos and schedules a purge
    (`Handlers.ConfirmYesOutcome`).
  - The photo limit is read on the class (`BotConfig.max_photos`), so it
    is always the default 100. Above it the handler returns without any
    cleanup.
  - The package cannot be imported as written. Its imports name four
    functions that do not exist:
    - `document_creator.py:11` imports `create_multi_page_document` from
      `document_base.py`;
    - `document_creator.py:10` imports `compress_photos_for_document`
      from `utils.py`;
    - `document_creators/__init__.py:22-23` import
      `cleanup_old_temp_files` and `cleanup_all_temp_files` from
      `document_creator.py`.

    (`create_document_with_table`, imported at
    `document_creators/__init__.py:16`, does exist: `document_base.py:250`
    makes it another name for `create_single_page_document`.) The model
    treats the missing builders as parameters (see "Left out").
- **A restart keeps the old purge.** `cleanup_user_data` schedules a purge
  an hour ahead, and `start` does not cancel it. When that purge fires, it
  deletes the session the user has started since
  (`Handlers.StalePurgeEndsNewSession`).
- **Unknown size keys are stored.** `size_option` stores whatever
  follows the `size_` prefix, including keys that are not presets. The
  name shown for such a key is "неизвестный"
  (`Sizes.UnknownNameIffUnknownKey`). `ImageWidth` falls back to 5 cm for
  it (`DocumentBase.ImageWidthRange`).
- **A size chosen outside the dialogue breaks `back`.** `size_option` is
  also registered outside the conversation (`handlers.py:1046-1050`). It
  stores the size and the tag 'upload_photos' on any record, even one
  without rows or columns. `back_command` and the "📊 Статус" button
  (`status_command`) then compute `rows * cols` on `None` and raise
  `TypeError` (`Handlers.SizeWithoutGridBreaks`). On
  records the forward dialogue builds, no handler raises `TypeError` this
  way (`Handlers.ConsistentNeverTypeError`).
- **Border containers pile up.** `set_table_borders` looks for
  `w:tblBorders` among the table's children but inserts it under
  `w:tblPr`. The lookup never finds an earlier container, so each call
  adds a fresh one. The same holds for the cells
  (`DocumentBase.Table.SetTableBorders`).

The code's own texts say two things it does not do. The model follows
the code:

- The docstring of `handle_confirm_no` (`handlers.py:548`) calls its
  button "Нет, начать заново" (no, start again). The handler does not
  restart: it clears the photos, schedules a purge and returns `END`
  (`handlers.py:555-556`).
- `cancel` replies "Данные удалены" (data deleted, `handlers.py:778`).
  The record is kept, without its photos, until the purge an hour later
  (`Handlers.CleanupKeepsRecord`).
- The comment at `document_creators/document_base.py:228` calls
  `height_rule = 1` an exactly set height. In python-docx the value 1 is
  the at-least rule, so rows may grow beyond the height
  (`DocumentBase.Table.Size`).

## Model

| member | source | states |
|---|---|---|
| Handlers.BotHandlers.constructor | handlers.py:38-41 | a new handler set has no sessions and no pending purge |
| Handlers.BotHandlers.CleanupUserData | handlers.py:946-953 | an existing record keeps everything but its photos and gets one more pending purge; an absent user changes nothing |
| Handlers.BotHandlers.DelayedCleanup | handlers.py:955-959 | the pending purge fires: the user's record is deleted if present, and one pending purge is used up |
| Handlers.BotHandlers.Start | handlers.py:73-102 | cleans up any earlier record (its purge stays scheduled), stores a fresh record tagged 'title' with the current time, and replies TITLE |
| Handlers.BotHandlers.HandleNoTitle | handlers.py:104-125 | without a session: END with nothing changed; otherwise the title is cleared, the tag becomes 'rows_input', and the reply is ROWS |
| Handlers.BotHandlers.GetTitle | handlers.py:127-165 | a stripped, lower-cased "нет" clears the title and any other text is stored verbatim; the tag becomes 'rows_input' and the reply is ROWS; without a record it raises KeyError |
| Handlers.BotHandlers.GetRows | handlers.py:167-197 | a text int() reads as a positive integer (ASCII or any script's decimal digits, with padding, sign and underscores) is stored as rows, the tag becomes 'cols_input', and the reply is COLS; anything else re-asks in ROWS with the record unchanged |
| Handlers.BotHandlers.ReadRows | handlers.py:174-191 | the rest of get_rows once int() has answered: a positive value is stored as rows; ValueError or a non-positive value stays in ROWS; without a record it raises KeyError |
| Handlers.BotHandlers.GetCols | handlers.py:199-240 | a text int() reads as a positive integer (any script's decimal digits included) whose page (rows × cols) fits max_photos is stored as cols and leads to SIZE_OPTION; a page too large, or a non-number, stays in COLS with the record unchanged; missing rows raises TypeError |
| Handlers.BotHandlers.ReadCols | handlers.py:206-234 | the rest of get_cols once int() has answered: the page check, the TypeError on missing rows, and the stored cols |
| Handlers.BotHandlers.SizeOption | handlers.py:242-270 | stores the callback data with every "size_" removed, sets the tag to 'upload_photos', and replies PHOTOS; without a record it raises KeyError |
| Handlers.BotHandlers.GetPhoto | handlers.py:272-358 | an image upload is compressed and appended to the photos; non-images, empty downloads and failed downloads leave the record unchanged; the reply is PHOTOS, or END without a session |
| Handlers.BotHandlers.BackCommand | handlers.py:360-437 | with photos in 'upload_photos' it goes to CONFIRM_BACK without changing the record; otherwise the tag moves one stage back and the reply is that stage's state |
| Handlers.BotHandlers.HandleConfirmBack | handlers.py:439-479 | an affirmative reply clears the photos and returns to SIZE_OPTION (size chosen) or TITLE; any other reply raises UnboundLocalError with the record unchanged |
| Handlers.BotHandlers.DoneCommand | handlers.py:481-530 | with no photos it stays in PHOTOS; otherwise the page summary is computed, the tag becomes 'confirmation', and the reply is CONFIRM |
| Handlers.BotHandlers.CreateAndSendDocument | handlers.py:562-770 | no session: nothing changes; above the class photo limit: nothing changes; otherwise the build fails (missing method), so the photos are cleared and a purge is scheduled |
| Handlers.BotHandlers.HandleConfirmYes | handlers.py:532-545 | ends the conversation after the send attempt, with the send attempt's effect on the record and the purges |
| Handlers.BotHandlers.HandleConfirmNo | handlers.py:547-556 | clears the photos, schedules a purge, and ends |
| Handlers.BotHandlers.Cancel | handlers.py:772-782 | clears the photos, schedules a purge, and ends |
| Handlers.BotHandlers.CleanupCommand | handlers.py:784-802 | drops the photos and keeps the rest of the record, with no purge; the conversation state is kept |
| Handlers.BotHandlers.HandleConversationButtons | handlers.py:1018-1044 | each button label runs its handler's step; the status label runs status_command's step; help and unknown labels change nothing and return None |
| Handlers.BotHandlers.StatusCommand | handlers.py:804-885 | changes nothing; in 'upload_photos' it raises TypeError when rows or cols is None and ZeroDivisionError when their product is 0, and otherwise only replies |
| Handlers.StatusRaisesExactly | handlers.py:804-885 | the status button never changes the record or schedules a purge, and raises exactly on an 'upload_photos' record whose page capacity is missing or zero |
| Handlers.BotHandlers.PeriodicCleanup | handlers.py:962-974 | exactly the sessions older than session_timeout lose their photos, keep their records and get a purge each; the others are untouched |
| Handlers.Expired | handlers.py:967-971 | exactly the users whose record is older than the timeout |
| Handlers.ClearPhotos | handlers.py:973-974 | same users; chosen records lose their photos, the others are unchanged |
| Handlers.SaysNoExactly | handlers.py:130-138 | the title is cleared exactly when the stripped answer is the three letters н, е, т, each in either case; every other text is stored verbatim |
| Handlers.PaddedNoMeansNoTitle | handlers.py:130-138 | "нет" surrounded by whitespace and in any case still clears the title |
| Handlers.RowsRejected | handlers.py:192-197 | a non-positive or non-integer text leaves the record and the state unchanged |
| Handlers.RowsAccepted | handlers.py:171-191 | the decimal text of any positive n stores exactly n as rows |
| Handlers.ColsLimit | handlers.py:213-234 | rows × cols above max_photos is refused in COLS; otherwise cols is stored and SIZE_OPTION follows |
| Handlers.PhotoAppended | handlers.py:286-351 | exactly one photo is appended after the existing ones, it is no larger than the upload, and nothing else changes |
| Handlers.NonImageDocumentIgnored | handlers.py:295-308 | a document whose MIME type lacks "image" changes nothing |
| Handlers.BackUndoesForward | handlers.py:385-437 | one step back from any middle stage undoes one step forward; TITLE and CONFIRM go back to TITLE |
| Handlers.BackChangesOnlyTag | handlers.py:360-437 | back changes only the stage tag (no field is reset), keeps the tag when photos wait for confirmation, and announces the state of its tag |
| Handlers.ConfirmBackIsBackWithoutPhotos | handlers.py:360-479 | with photos, back asks for confirmation; an affirmative reply with a size chosen is back from the upload stage without the photos (its TypeError included); without a size, TITLE without the photos; any other reply raises UnboundLocalError and changes nothing |
| Handlers.DoneOutcome | handlers.py:496-530 | no photos keeps PHOTOS; photos with a valid grid lead to CONFIRM with the tag 'confirmation' |
| Handlers.ConfirmYesOutcome | handlers.py:581-634 | up to the class limit, the send fails with AttributeError and cleans up; above it, the record is kept and no purge is scheduled |
| Handlers.CleanupKeepsRecord | handlers.py:946-953 | after cancel or "no", the record survives without photos and one more purge is pending |
| Handlers.CommandsKeepConsistent | handlers.py:73-556 | start, handle_no_title, back, done, confirm yes/no, cancel and cleanup keep the invariant the forward dialogue builds (sizes positive, rows known from 'cols_input' on, cols from 'size_selection' on) |
| Handlers.TitleKeepsConsistent | handlers.py:127-165 | get_title keeps the invariant |
| Handlers.ConfirmBackKeepsConsistent | handlers.py:439-479 | handle_confirm_back keeps the invariant |
| Handlers.ButtonsKeepConsistent | handlers.py:1018-1044 | the conversation buttons keep the invariant |
| Handlers.PhotoKeepsConsistent | handlers.py:272-358 | get_photo keeps the invariant |
| Handlers.ReadsKeepConsistent | handlers.py:167-240 | get_rows and get_cols keep the invariant, whatever int() returned |
| Handlers.SizeKeepsConsistent | handlers.py:242-270 | size_option keeps the invariant on a record whose grid is complete |
| Handlers.ConsistentNeverTypeError | handlers.py:385-530 | on a consistent record at the upload or confirmation stage, back, done and status never raise, confirm-back raises only on a non-affirmative reply, and sending ends in AttributeError or the photo limit |
| Handlers.SizeWithoutGridBreaks | handlers.py:242-270 | size_option on a fresh record breaks the invariant, and back and the status button then raise TypeError |
| Handlers.RowsAcceptScriptDigits | handlers.py:171-191 | a text of decimal digits of any script is stored as the number they spell |
| Handlers.FullWidthFive | handlers.py:172 | the full-width digit "５" is read as 5 |
| Handlers.StalePurgeEndsNewSession | handlers.py:73-89 | restarting a session does not stop the purge scheduled for the old one, which then deletes the new one |
| Conversation.FirstMatchIsFirst | handlers.py:977-1016 | dispatch picks the first handler whose filter accepts the update; no pick means no filter accepts it |
| Conversation.Route | handlers.py:977-1016 | outside the conversation only the entry points are consulted |
| Conversation.StartAlwaysRestarts | handlers.py:980 | every text the command handler takes for start (any capitalisation, any suffix) restarts from any state, in or out of the conversation |
| Conversation.CommandWord | handlers.py:980 | the command characters [A-Za-z0-9_] a text opens with, stopping at the first other character |
| Conversation.CommandNamedExactly | handlers.py:980 | a text is the command `name` exactly when it is '/', then the name in any capitalisation, then the end or a character that cannot continue a name (so "/START", "/Start", "/start@bot" and "/start" before a newline are start) |
| Conversation.NotCommands | handlers.py:982-984 | "/" and "/привет" are not commands, and "/startx" is not start |
| Conversation.TitleTakesNonCommands | handlers.py:982-984 | in TITLE, every text that opens with no bot command reaches get_title |
| Conversation.NoTitleButtonBecomesTitle | handlers.py:982-984 | in TITLE, "Без заголовка" reaches get_title and becomes the title; ROWS follows |
| Conversation.TitleStoresText | handlers.py:151-165 | in TITLE every text that is no command and not a "нет" answer (`SaysNo`, so a typed "no" is stored) is stored as typed and the dialogue moves to ROWS |
| Conversation.BackShadowedInRows | handlers.py:986-988 | in ROWS, "◀️ Назад" reaches get_rows, is rejected, and the dialogue stays in ROWS |
| Conversation.RowsRejectWords | handlers.py:986-988 | in ROWS every non-command text opening with no whitespace, digit of any script or sign reaches get_rows, is rejected, and changes neither state nor record |
| Conversation.CancelInConfirmBackRaises | handlers.py:1005-1006 | in CONFIRM_BACK, every /cancel command reaches handle_confirm_back and raises UnboundLocalError; state and record stay |
| Conversation.CancelElsewhere | handlers.py:1009-1010 | in every other state, every /cancel command reaches cancel and ends the conversation |
| Conversation.PhotoReachesGetPhoto | handlers.py:998-999 | in PHOTOS, a photo or a document whose MIME type starts with "image/" reaches get_photo |
| Conversation.OutsideOnlyStart | handlers.py:980 | outside the conversation, exactly the /start commands are handled |
| Conversation.TrimmedLabelIsNotNo | handlers.py:130-137 | a label without padding whose length is not 3 is never the "нет" answer |
| Conversation.TrimmedLabelIsNotNumber | handlers.py:172 | a label that opens with neither whitespace, nor a decimal digit of any script, nor a sign is not an integer |
| Pagination.SplitIntoPages | document_creators/utils.py:126-147 | a non-positive page size gives one page; otherwise consecutive pages of exactly rows × cols photos, the last with 1..rows × cols, concatenating back to the input in order |
| Pagination.FlattenChunks | document_creators/utils.py:142-147 | concatenating the pages gives back the photos in order |
| Pagination.ChunkSizes | document_creators/utils.py:143-145 | every page but the last is full; the last holds 1..rows × cols; no photos means no pages |
| Pagination.FloorDivIsFloor | document_creators/utils.py:163-164 | Python's // rounds down and % takes the divisor's sign: a == b × q + r, with r in [0, b) for b > 0 and in (b, 0] for b < 0 |
| Pagination.CalculatePagesInfo | document_creators/utils.py:150-175 | raises ZeroDivisionError exactly when rows × cols is 0; otherwise echoes count, rows, cols and page size |
| Pagination.PagesInfoMatchesSplit | document_creators/utils.py:126-175 | the summary's page count and last-page count are those of split_into_pages |
| Pagination.LastPageCount | document_creators/utils.py:162-166 | zero photos give 0 pages; otherwise the full pages plus the last page account for every photo, and the last holds 1..rows × cols |
| Images.ScaledSize | document_creators/utils.py:30-40 | fitting images keep their size; otherwise the longer side becomes max_size and the shorter one is truncated proportionally |
| Images.ScaledSizeFits | document_creators/utils.py:30-40 | the scaled image fits max_size and keeps its orientation |
| Images.Variants | document_creators/utils.py:43-75 | the original format unchanged, then JPEG at the quality (non-JPEG) or at max(50, quality − 20) (JPEG); all at the scaled size |
| Images.SmallestIsFirstMinimum | document_creators/utils.py:77-79 | the stable sort picks the first among the smallest candidates |
| Images.CompressImage | document_creators/utils.py:15-93 | returns the first smallest candidate when it is below 95 % of the input, else the input itself; decode or save failures and an empty input return the input |
| Images.CompressedNeverGrows | document_creators/utils.py:84-89 | the result is never larger than the input, and is either the input or under 95 % of it |
| Images.CompressedIsSmallestVariant | document_creators/utils.py:43-89 | a changed result is one of the candidates and no candidate is smaller |
| Images.UndecodableKept | document_creators/utils.py:91-93 | an image that cannot be opened is returned as it came |
| Images.TruncDiv | document_creators/utils.py:35 | int() truncation of a non-negative quotient |
| Sizes.CalculateAutoSize | document_creators/utils.py:96-123 | raises ZeroDivisionError exactly when rows or cols is 0; otherwise a square size between 2 and 10 cm |
| Sizes.AutoSizeFitsPage | document_creators/utils.py:114-121 | above the 2 cm floor the grid fits 17 × 25 cm; between the bounds it is 90 % of the smaller cell side |
| Sizes.ClampIsNearest | document_creators/utils.py:121 | max(2, min(x, 10)) lies in the bounds and is the point of the bounds nearest x |
| Sizes.NameOf | document_creators/utils.py:178-193 | the preset keys are small/medium/large/auto and their names are "3.0 см", "5.0 см", "8.0 см" |
| Sizes.SizeOptionNamesDistinct | document_creators/utils.py:178-193 | distinct presets have distinct names, none of them "неизвестный" |
| Sizes.UnknownNameIffUnknownKey | document_creators/utils.py:188-193 | the name is "неизвестный" exactly for keys outside the presets |
| DocumentBase.ImageWidth | document_creators/document_base.py:152-172 | the automatic width raises ZeroDivisionError exactly on an empty grid; presets never fail |
| DocumentBase.ImageWidthRange | document_creators/document_base.py:152-172 | every width lies in 2..10 cm; preset widths are 3, 5 or 8 cm, and an unknown key gives 5 cm |
| DocumentBase.AutoWidthFitsPage | document_creators/document_base.py:153-165 | above the floor the automatic width lets the grid fit the page inside the margins |
| DocumentBase.FindEdge | document_creators/document_base.py:60-63 | finds the first border element for an edge, or reports that none exists |
| DocumentBase.SetEdgeReuses | document_creators/document_base.py:59-66 | setting an edge rewrites its element in place, or appends one if it is missing; other edges are untouched |
| DocumentBase.SetEdges | document_creators/document_base.py:59-88 | after the loop every listed edge carries the border; on a fresh container the result is exactly one element per edge, in order |
| DocumentBase.Table.constructor | document_creators/document_base.py:145 | a rows × cols table of empty cells with no borders |
| DocumentBase.Table.Fill | document_creators/document_base.py:179-224 | cell (r, c) is fitted for photo r × cols + c when that photo exists (a picture, or a placeholder when it does not embed); cells past the last photo are set to empty text |
| DocumentBase.Table.Size | document_creators/document_base.py:226-241 | every row gets the cell size as its height under height rule 1 (at least, a minimum the row may exceed) and every cell the width |
| DocumentBase.Table.SetTableBorders | document_creators/document_base.py:21-88 | each call adds one table border container and one container per cell, without reusing earlier ones |
| DocumentBase.Heading | document_creators/document_base.py:130-142 | a heading exactly for a non-empty title, with that text |
| DocumentBase.CreateSinglePageDocument | document_creators/document_base.py:91-246 | fails exactly when the width computation does; otherwise a rows × cols table in row-major order, sized, with hidden borders, under the title's heading |
| DocumentBase.PlacementRowMajor | document_creators/document_base.py:179-220 | cell (r, c) holds photo r × cols + c, as a picture exactly when that photo embeds |
| DocumentBase.CellOfIndex | document_creators/document_base.py:179-182 | every photo index on a page has exactly one cell |
| DocumentBase.IndexOfCell | document_creators/document_base.py:181 | the cell of index r × cols + c is (r, c) |
| Creator.ChooseRoute | document_creators/document_creator.py:38-62 | single page exactly when the photos fit one page (or the page size is not positive); a staged file exactly for more than 10 photos with staged files enabled |
| Creator.Create | document_creators/document_creator.py:34-109 | compression failures propagate; the chosen route's builder gives the result; a failed in-memory build is retried through a file |
| Creator.OnePageIffFits | document_creators/document_creator.py:38-40 | one page or none exactly when the photos fit in rows × cols |
| Creator.SinglePageIffOnePage | document_creators/document_creator.py:38-42 | the single-page route is taken exactly when the photos would split into at most one page |
| Creator.TempFileOnlyForSeveralPages | document_creators/document_creator.py:57-79 | a staged file is used only for documents of at least two pages |
| Creator.DocumentCreator.constructor | document_creators/document_creator.py:19-32 | stores the settings and shares the process-wide temp manager |
| Creator.DocumentCreator.CreateViaTempFile | document_creators/document_creator.py:81-109 | builds through a tracked temp file, which stays registered; the model writes the file exactly when the build succeeded (the save-then-failed-read case is under Left out) |
| Creator.DocumentCreator.CreateInMemory | document_creators/document_creator.py:64-79 | builds in memory, and falls back to a staged file only when that fails |
| Creator.DocumentCreator.CreateMultiPage | document_creators/document_creator.py:57-62 | takes the staged file for more than 10 photos with staged files on; otherwise in memory with its fallback |
| Creator.DocumentCreator.CreateDocument | document_creators/document_creator.py:34-42 | compresses, then takes the single-page, in-memory or staged-file route with the temp tracking that route implies |
| Creator.DocumentCreator.CreateTable | document_creators/document_creator.py:111-114 | behaves exactly as create_document |
| TempManager.FileSystem.Unlink | document_creators/temp_manager.py:99-104 | removes one file and nothing else |
| TempManager.FileSystem.RemoveTree | document_creators/temp_manager.py:106-111 | removes a directory and everything below it, and nothing else |
| TempManager.UnlinkEach | document_creators/temp_manager.py:77-79 | removes exactly the given files |
| TempManager.RemoveTrees | document_creators/temp_manager.py:90-92 | removes exactly what lies under the given directories |
| TempManager.Outside | document_creators/temp_manager.py:106-111 | keeps exactly the entries under none of the removed roots |
| TempManager.TempFileManager.constructor | document_creators/temp_manager.py:32-35 | a base directory "photo_bot_…" is created under the temp root and tracked; no file is tracked |
| TempManager.TempFileManager.CreateTempFile | document_creators/temp_manager.py:40-44 | a name under the base directory with the suffix is tracked; no file is created |
| TempManager.TempFileManager.CreateTempDir | document_creators/temp_manager.py:46-50 | a directory with the prefix is created under the base and tracked |
| TempManager.TempFileManager.RegisterTempFile | document_creators/temp_manager.py:52-54 | a path is tracked exactly when it exists |
| TempManager.TempFileManager.UnregisterTempFile | document_creators/temp_manager.py:56-57 | the path is no longer tracked; absent paths are a no-op |
| TempManager.TempFileManager.StaleFiles | document_creators/temp_manager.py:62-75 | exactly the tracked files that are missing, older than the cutoff, or cannot be examined |
| TempManager.TempFileManager.EmptyTrackedDirs | document_creators/temp_manager.py:81-88 | exactly the tracked directories other than the base that list as empty |
| TempManager.EmptyDirs | document_creators/temp_manager.py:81-88 | never the base; an empty directory is one holding no file and no sub-directory, and listing it succeeds |
| TempManager.TempFileManager.CleanupOldFiles | document_creators/temp_manager.py:59-97 | stale files are deleted and untracked, then empty tracked directories are removed and untracked; the base directory survives |
| TempManager.SweepKeepsBase | document_creators/temp_manager.py:83 | removing the empty tracked directories never removes the base directory |
| TempManager.TempFileManager.CleanupAll | document_creators/temp_manager.py:131-147 | every tracked file and directory is deleted, the base last if it still exists, and nothing stays tracked |
| TempManager.ManagerSlot.constructor | document_creators/temp_manager.py:18 | no instance yet |
| TempManager.ManagerSlot.Obtain | document_creators/temp_manager.py:25-30 | the first call creates and initialises the manager; later calls return the same one and touch nothing |
| TempManager.ObtainTwice | document_creators/temp_manager.py:25-30 | two constructions give the same manager |
| PyText.StripIsTrimmedSlice | handlers.py:130 | strip() removes exactly the leading and trailing whitespace |
| PyText.StripIgnoresPadding | handlers.py:130 | padding around an unpadded text is removed by strip(), and by the ASCII strip inside int() |
| PyText.Lower | handlers.py:130 | lower() lowers A–Z and the Cyrillic capitals U+0400–U+042F, and keeps every other character |
| PyText.LowerPreimage | handlers.py:130 | a character lowers to a lower-case letter exactly when it is that letter or its capital |
| PyText.LowerIdempotent | handlers.py:441 | lower-casing twice is lower-casing once |
| PyText.SizeCallbackKey | handlers.py:248 | removing "size_" from "size_" + key gives back the key when the key does not contain "size_" |
| PyText.ContainsAtOffset | handlers.py:299 | `in` holds exactly when the text occurs at some offset |
| PyText.ParseIntRoundTrip | handlers.py:172 | int() of the decimal text of n is n |
| PyText.ParseIntIgnoresPadding | handlers.py:172 | int() ignores surrounding whitespace |
| PyText.DecimalDigit | handlers.py:172 | a decimal digit has a value below 10, and among ASCII characters exactly 0–9 are digits |
| PyText.ToAscii | handlers.py:172 | int()'s rewriting step: same length, each character replaced by its ASCII form |
| PyText.ParseIntOfScriptDigits | handlers.py:172 | int() of a text of decimal digits of any script is the number they spell |

## Left out

- Everything the bot says is left out: the replies, their Markdown, the keyboards and `MessageGenerator`. The model keeps only what a handler returns to the conversation and what it changes in `user_data`.
- `help_command`, `button_handler`, `get_button_handler`, `get_callback_handlers` and `get_command_handlers` only reply or register handlers. `size_option` is also reachable outside the conversation through `get_callback_handlers`, and `status_command` through the `/status` command of `get_command_handlers`; those registrations are not modelled, and `status_command` is modelled only as the conversation's status button (`Handlers.StatusStep`).
- `conversation_timeout=7200` is not modelled: the conversation library's own timer, not the bot's code, ends idle conversations.
- Asynchrony and threads:
  - `asyncio.create_task` and the hour-long sleep of `_delayed_cleanup` are modelled by `pendingPurges` plus `DelayedCleanup`, which may fire at any later point.
  - The background thread of `TempFileManager` and its `atexit` hook become methods a caller invokes.
  - The class lock is not modelled: the model is sequential.
- The clock is a parameter (`now`, in whole seconds), and `datetime.now()` is not called.
- Temp-file names from `tempfile` are a `name` parameter.
- The file system is the `FileSystem` class. Failures of `os.path.getmtime` and `os.listdir` are the `statFails` and `listFails` sets. `shutil.rmtree(ignore_errors=True)` is modelled as always removing the whole tree, so partial deletion is not modelled.
- Pillow is left out: decoding, resampling and encoding are an abstract `Codec`. The model decides which saves `compress_image` tries (`Images.Variants`), the size it scales to (`Images.ScaledSize`) and which preparation each mode gets before a JPEG save (`Images.JpegConversion`). `RGBA` and `P` are flattened on white through the alpha channel, `LA` is pasted without a mask, so its transparency is lost, other modes are converted to RGB, and RGB is saved as it is. What these preparations and saves do to the pixels and bytes is the codec's.
- python-docx is left out: the document is the `Table` class and its cells. Fonts, alignment, margins and the serialised XML are not modelled. `height_rule = 1` is kept as a constant.
- Images.Compressed: the 0.95 threshold and `int(height * (max_size / width))` are computed on exact rationals, not on IEEE doubles. A float rounding that lands exactly on a boundary may differ.
- Sizes.CalculateAutoSize and DocumentBase.ImageWidth: centimetres are exact reals, not doubles.
- Creator.Builders: `compress_photos_for_document`, `create_single_page_document` and `create_multi_page_document` are parameters of `DocumentCreator`. `document_base.py` does not define `create_multi_page_document`, and importing it fails. The model therefore treats the multi-page builder as supplied by the caller.
- Creator.DocumentCreator.CreateViaTempFile: one builder result stands for building, `doc.save` and the read-back together, so the model writes the file only on success. In the source a save that succeeds and a read at `document_creator.py:96-97` that then fails leave the file on disk. The `finally` at lines 107-109 only logs, and the file stays tracked until a cleanup removes it.
- Handlers.BotHandlers.CreateAndSendDocument: the steps after the failing `create_multi_page_document` call are never reached, so they are not modelled. These are the size check, the delivery and the success cleanup.
- Handlers.BotHandlers.CreateAndSendDocument: the `DocumentCreator` it constructs first obtains the process-wide `TempFileManager` (`document_creators/document_creator.py:32`). The first time, that creates the base temp directory and starts the background sweep (`document_creators/temp_manager.py:25-38`). This effect is modelled by `TempManager.ManagerSlot.Obtain`, not inside the handler.
- Dictionary iteration order in `periodic_cleanup` and in the temp manager's loops is not modelled: the models act on sets.
- Conversation.Route: `CommandHandler` accepts `/start@<bot name>` only for this bot's user name. The model accepts any text after `@`, because the bot's user name is not part of the code.
- Conversation.Route: a bot command is '/' followed by the characters [A-Za-z0-9_]. Telegram's further rules for marking a command entity, such as the length limit on command names, are not modelled.
- PyText.Lower: only A–Z and the Cyrillic capitals are lowered. The handlers compare `lower()` only with "нет" (`handlers.py:130`) and with the affirmative words (`handlers.py:441-443`). Python's full `lower()` maps no other character onto a letter of those words, so the comparisons come out the same. By `PyText.LowerPreimage`, the model also matches each word exactly in every capitalisation.
- PyText.DecimalDigit: the decimal digits are those of Unicode 15.0/15.1 (general category Nd). A Python built on another Unicode version may accept a slightly different set.
- TempManager.TempFileManager.CreateTempDir: the prefix is always passed explicitly; the source's default prefix "temp_" (`document_creators/temp_manager.py:46`) is not modelled.
- Creator.DocumentCreator.CreateViaTempFile: the builder's result does not depend on the file system, so after `CleanupAll` has removed the base directory (`document_creators/temp_manager.py:142-146`) the model still writes the temporary file into it, where `doc.save` (`document_creator.py:94`) would raise FileNotFoundError. This state is reachable only through the exit hook or `cleanup_all_temp_files`.
- TempManager.TempFileManager.CreateTempDir: after `CleanupAll` has removed the base directory, the model still creates the new directory, where `mkdtemp` would raise.
- TempManager.FileSystem.Unlink: an unlink cannot fail in the model. `_delete_file_safe` (`document_creators/temp_manager.py:99-104`) swallows such a failure, and the path is untracked anyway, so only the file left on disk is not modelled.
