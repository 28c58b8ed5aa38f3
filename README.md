# Matrix rain, modelled in Dafny

This project models the sequential core of the "Matrix rain" terminal
animation and proves properties of that model. The animation is written in
Python, in four variants:

- **theone_ncurses.py** is the asyncio/curses variant:
  - an overwrite-oldest `RingBuffer` per column;
  - a `MessageGenerator` that produces tagged glyphs (NORMAL, DANGER,
    CIPHER), with HEAD added later;
  - one iteration of `MatrixChannel.process`, which moves one glyph from
    the column's queue into its ring buffer;
  - the colour precedence and row placement of `render_channel`.
- **ncurses/theone.py** and **nocolor/theone.py** work on strings:
  - each `MessageChannel` keeps a string and an offset;
  - `ChannelMessageDrainer` flags characters that lie inside a (reversed)
    cipher word;
  - `Matrix.get_screen_and_scroll` builds a frame with a `'!'` after every
    flagged character, reverses it and then scrolls some columns;
  - nocolor's main loop prints the frame with every `'!'` removed.

  Their core classes are textually identical, so one model serves both. A
  line `n` of ncurses/theone.py between 43 and 156 is line `n - 5` of
  nocolor/theone.py.
- **theone.py** has the same columns, with two differences:
  - a generator that yields `''` as the cipher when no word is configured;
  - a `get_screen_and_scroll(showcolor)` that wraps a character following a
    blank in VT100 colour escapes written backwards, so the escapes read
    forwards after the final reversal.

Randomness is an explicit input. Every `random.randint` and `random.choice`
consumes one number from a finite `Tape` (`seq<nat>`), in the order the
Python code evaluates the calls. `randint(a, b)` is `a + t[0] % (b - a + 1)`.
It raises `ValueError` when `b < a`, and `choice([])` raises `IndexError`;
both checks come before any draw, as in CPython. When the tape runs out, the
result is the model-only error `Exhausted`. Because the tape is finite, the
draw-driven loops (for example `_populate_message`, whose blank chunks may be
empty) terminate without a fuel bound.

`HEIGHT` and `WIDTH` are globals in the source. Here they are parameters of
the constructors, and exceptions become `Result` values. The objects the
source updates in place are classes:

- `RingBuffer`, over an `array`;
- `MatrixChannel`;
- `MessageChannel`;
- `ChannelMessageDrainer`;
- both `Matrix` classes.

Every `while` and `for` statement of the source is a method with a `while`
or `for` loop. Each such method is proved against a recursive specification
function, and the properties are proved about those functions. The
comprehensions that only compute a list are functions:

- `[random.choice(ALPHABETS) for i in range(length)]` (ncurses/theone.py:44)
  and `[(choice(ALPHABETS), NORMAL) for i in range(length)]`
  (theone_ncurses.py:124) are the recursive `Random.Choices`;
- `[(' ', NORMAL) for i in range(length)]` (theone_ncurses.py:131) is a
  sequence comprehension in `Glyphs.NewSpaceMessage`;
- `[''.join(reversed(x)) for x in ...]` (theone_ncurses.py:115,
  ncurses/theone.py:52) is `Text.ReversedWords`;
- the character tables built from `include_ranges` are `Alphabets.Table`.

The comprehensions that build the columns and their drainers in the
`Matrix` constructors create objects, so they are loops
(`CipherFrames.Matrix.CreateColumns`, `CipherFrames.Matrix.CreateDrainers`).

Modules, one per file:

| module | file | models |
|---|---|---|
| `Wrappers` | wrappers.dfy | Option, Result, the exceptions |
| `Random` | random.dfy | `randint`, `choice` over a tape |
| `Text` | text.dfy | `str.isspace`, `split`, reversal, `replace` |
| `Alphabets` | alphabets.dfy | the `include_ranges` / `ALPHABETS` tables |
| `RingBuffers` | ring_buffer.dfy | `RingBuffer` |
| `Glyphs` | glyph_generator.dfy | theone_ncurses.py `EncodingAttr` and `MessageGenerator` |
| `Channels` | matrix_channel.dfy | theone_ncurses.py `MatrixChannel` |
| `Rendering` | render.dfy | theone_ncurses.py `render_channel` |
| `Scrolling` | message_channel.dfy | the string generator and `MessageChannel` of the other three files |
| `Drainers` | drainer.dfy | `ChannelMessageDrainer` |
| `CipherFrames` | cipher_matrix.dfy | `Matrix` of ncurses/theone.py and nocolor/theone.py, nocolor's `'!'` removal |
| `HeadFrames` | head_matrix.dfy | `Matrix` of theone.py |

Where the code and its design description disagree, the model follows the
code:

- `new_random_unicode` replaces a glyph's NORMAL tag by DANGER; it does not
  add DANGER beside NORMAL. Every generated glyph therefore carries exactly
  one of NORMAL, DANGER or CIPHER (`Glyphs.MessageTags`).
- ncurses/theone.py and nocolor/theone.py use a wider table than the other
  two files. It adds most printable ASCII (0x23-0x26, 0x28-0x7E) and the
  runes block (0x16A0-0x16F0). Both tables are encoded literally, and the
  absence of `'!'` and of whitespace is proved for each.

## Model

| member | source | states |
|---|---|---|
| Random.RandInt | theone.py:119 | `randint(lo, hi)` raises ValueError exactly when `hi < lo`; otherwise it succeeds iff a draw is left, returns a value in `[lo, hi]` and consumes one draw |
| Random.RandIntReaches | theone.py:119 | every value of the range is reachable by some draw, so the tape does not restrict the model's behaviours |
| Random.Choice | ncurses/theone.py:56 | `choice(s)` raises IndexError on an empty list; otherwise it succeeds iff a draw is left and returns an element of `s` |
| Random.Choices | ncurses/theone.py:43-44 | n draws give n elements of `s` and consume exactly n draws; the error is IndexError for an empty `s`, otherwise running out of draws |
| Text.Words | ncurses/theone.py:51 | `split()` yields non-empty words without whitespace |
| Text.WordsKeepNonSpace | ncurses/theone.py:51 | the words of `split()`, concatenated, are exactly the non-whitespace characters of the input, in order |
| Text.WordCharsFrom | ncurses/theone.py:51 | every character of a word occurs in the input |
| Text.ReversedWords | ncurses/theone.py:52 | the stored cipher messages are the words reversed, one per word, and reversing a message gives its word back |
| Text.ReverseReverse | theone.py:121 | reversing twice gives the original text |
| Text.ReverseConcat | theone.py:121 | the reversal of `a + b` is the reversal of `b` followed by that of `a` |
| Text.RemoveDrops | nocolor/theone.py:170 | `replace(x, '')` leaves no `x` and never lengthens the text |
| Text.RemoveConcat | nocolor/theone.py:170 | `replace` distributes over concatenation |
| Text.RemoveReverse | nocolor/theone.py:170 | `replace` commutes with reversal |
| Text.CountReverse | nocolor/theone.py:170 | reversal keeps the number of occurrences of a character |
| Alphabets.RangeChars | theone.py:34-37 | `range(first, last + 1)` gives `last - first + 1` characters starting at `first`, all within the range |
| Alphabets.Table | theone.py:34-37 | every table character lies in some include range; a table whose first range is non-empty is non-empty |
| Alphabets.CursesAlphabetIsRain | ncurses/theone.py:22-41 | the ncurses/nocolor table is non-empty, has no `'!'` (0x21 is skipped) and no whitespace character |
| Alphabets.LatinGreekAlphabetIsRain | theone.py:20-37 | the theone.py / theone_ncurses.py table is non-empty, has no `'!'` and no whitespace character |
| RingBuffers.Last | theone_ncurses.py:92-95 | the retained window has `min(len, n)` elements and is the whole history or its last `n` elements |
| RingBuffers.Newest | theone_ncurses.py:97-102 | there is no newest element exactly when nothing was appended |
| RingBuffers.RingBuffer.constructor | theone_ncurses.py:56-60 | a new buffer is empty, not full, has no cursor and keeps the invariant |
| RingBuffers.RingBuffer.Append | theone_ncurses.py:82-90 | `append` adds `x` to the history, keeps the invariant (at most `max` elements, cursor in `[0, max)` once full) and is full iff at least `max` elements were appended; once full it stays full |
| RingBuffers.RingBuffer.AppendGrowing | theone_ncurses.py:82-90 | the not-full `append` grows the list and switches to the full behaviour exactly when the list reaches `max` |
| RingBuffers.RingBuffer.AppendFull | theone_ncurses.py:64-68 | the full `append` overwrites the oldest slot and advances the cursor modulo `max`, keeping the rotation equal to the last `max` appended items |
| RingBuffers.RotateOverwrite | theone_ncurses.py:67-73 | overwriting `data[cur]` and advancing `cur` turns the rotation `data[cur:] + data[:cur]` into the old one without its oldest element, plus `x` |
| RingBuffers.LastAppend | theone_ncurses.py:64-90 | one append adds `x` to the retained window and drops the oldest element once the window is full |
| RingBuffers.RingBuffer.Get | theone_ncurses.py:70-95 | `get` returns exactly the last `min(n, max)` appended items, oldest to newest, in both behaviours |
| RingBuffers.RingBuffer.Peek | theone_ncurses.py:75-102 | `peek` returns None before any append and otherwise the most recently appended item, in both behaviours |
| RingBuffers.FiveSlotScenario | theone_ncurses.py:54-102 | in a buffer of capacity 5, after appending A..F, `get` gives B..F and `peek` gives F |
| Glyphs.NewMessageGenerator | theone_ncurses.py:113-116 | the cipher messages are the words of `ciphers` (none when it is None), each reversed, non-empty and without whitespace |
| Glyphs.CatIsStoredReversed | theone_ncurses.py:115 | a configured "CAT" is stored as "TAC" |
| Glyphs.CipherGlyphs | theone_ncurses.py:120 | a cipher message becomes one CIPHER glyph per character, in order |
| Glyphs.NewRandomCipher | theone_ncurses.py:119-120 | with no words the cipher is empty and draws nothing; otherwise, when a draw is left, it is the CIPHER glyphs of some stored message |
| Glyphs.CatSplicesReversed | theone_ncurses.py:115-120 | a configured "CAT" is emitted as T, A, C, each tagged CIPHER |
| Glyphs.NewRandomUnicode | theone_ncurses.py:122-128 | `length` alphabet glyphs, each NORMAL or DANGER, with at most one DANGER; with a non-empty alphabet and `length >= 1` only running out of draws stops it |
| Glyphs.NewSpaceMessage | theone_ncurses.py:130-131 | `length` blanks tagged NORMAL |
| Glyphs.Chunk | theone_ncurses.py:138 | a chunk has between 1 and `length` glyphs, each NORMAL or DANGER; with `length < 1` it raises ValueError |
| Glyphs.CipherSplice | theone_ncurses.py:140-142 | a splice holds only generated glyphs, and no CIPHER glyph when no word is configured; with `length >= 3` only running out of draws stops it |
| Glyphs.Message | theone_ncurses.py:136-143 | `new_message` extends the buffer it starts from to strictly more than `length` glyphs; it terminates because every chunk adds at least one glyph |
| Glyphs.NewMessage | theone_ncurses.py:133-143 | the `while` loop of `new_message` returns what `Message` specifies, exception included |
| Glyphs.MessageTags | theone_ncurses.py:124-142 | every glyph of a message carries exactly one of NORMAL, DANGER, CIPHER and never HEAD; with no words, none is CIPHER |
| Glyphs.LongMessageOnlyExhausts | theone_ncurses.py:137-142 | with `length >= 3` `new_message` raises nothing |
| Glyphs.ChunkOnZeros | theone_ncurses.py:138 | on zero draws a chunk is one glyph long and uses two draws (blank) or five (glyph retagged DANGER) |
| Glyphs.SpliceRaises | theone_ncurses.py:140-142 | with `length < 3` a cipher roll reaches `randint(1, int(length/3))` with an empty range and raises ValueError |
| Glyphs.ShortMessageCipherRaises | theone_ncurses.py:137-142 | for `1 <= length < 3` some draws make `new_message` raise ValueError, whatever the configuration |
| Glyphs.DegenerateLengths | theone_ncurses.py:136-138 | `new_message(0)` raises at `randint(1, 0)`; a negative length gives an empty message without drawing |
| Channels.Refill | theone_ncurses.py:173-174 | a non-empty queue is kept unchanged; an empty one becomes a new message, which is non-empty |
| Channels.HeadAttrs | theone_ncurses.py:187-188 | HEAD is added iff the previous buffered glyph exists and is blank, the look-ahead exists and is not blank, and the glyph is not blank; every other flag is kept |
| Channels.NextDelay | theone_ncurses.py:190-195 | the delay is re-drawn (fast or normal) only when there is none yet or the glyph is HEAD, and is otherwise unchanged |
| Channels.StepOf | theone_ncurses.py:172-198 | with `length >= 0` the queue is non-empty after one iteration; with a non-empty alphabet as well, `popleft` never meets an empty deque |
| Channels.StepIsFifo | theone_ncurses.py:173-198 | on a non-empty queue the step appends exactly the popped front glyph (same character, same flags apart from HEAD) and leaves the rest of the queue in order. The rest is topped up from the generator when the popped glyph was the last one. The step succeeds iff that top-up and the delay draw do. With two or more glyphs queued, nothing is generated |
| Channels.StepOnEmptyQueue | theone_ncurses.py:173-183 | on an empty queue the step emits the front glyph of a freshly generated message and keeps the rest of it, topped up if needed; a failing generation is the step's error, and a negative length makes `popleft` raise IndexError |
| Channels.HeadExactly | theone_ncurses.py:173-188 | a glyph the generator made is HEAD exactly under the HEAD rule, whose look-ahead is the front of the queue after the step, which may be the first glyph of a new message; with `length >= 0` that front always exists |
| Channels.StepKeepsInvariant | theone_ncurses.py:173-198 | a step keeps the queue free of HEAD and adds HEAD only to a visible glyph after a blank; the delay after every step, the first included, is one of the two constants |
| Channels.MatrixChannel.constructor | theone_ncurses.py:154-160 | a new channel holds `blanks` blank glyphs in its queue, an empty ring buffer of capacity `height`, and no delay |
| Channels.MatrixChannel.Create | theone_ncurses.py:159 | `__init__` draws the number of initial blanks with `randint(0, height)` |
| Channels.MatrixChannel.Buf | theone_ncurses.py:166-168 | `buf` is the last `length` glyphs the channel emitted, oldest first |
| Channels.MatrixChannel.NextStep | theone_ncurses.py:172-195 | the imperative iteration (refill, peek, popleft, refill, look ahead, HEAD, delay) computes `StepOf` |
| Channels.MatrixChannel.RefillQueue | theone_ncurses.py:173-174 | the refill computes `Refill` through the generator's loop |
| Channels.MatrixChannel.Step | theone_ncurses.py:170-198 | one iteration keeps the channel invariant, appends exactly the emitted glyph to the buffer history and installs the new queue and delay |
| Rendering.ColourOf | theone_ncurses.py:282-288 | colour precedence is DANGER (magenta) over CIPHER (red) over HEAD (yellow) over NORMAL (green) |
| Rendering.DrawAt | theone_ncurses.py:279-291 | glyph `idx` is drawn at row `len(buf) - idx`, column `channelid`, bold, in its colour; only a DANGER glyph may be blanked, and only a DANGER glyph draws |
| Rendering.Rendered | theone_ncurses.py:278-291 | a render extends the calls made so far by one call per remaining glyph |
| Rendering.DangerCountIsIndices | theone_ncurses.py:287-289 | the number of draws a render consumes is the number of positions that hold a DANGER glyph |
| Rendering.DangerCountAppend | theone_ncurses.py:287-289 | one more glyph adds one draw exactly when it is DANGER |
| Rendering.RenderedDraws | theone_ncurses.py:278-291 | every glyph `k` is drawn as `DrawsGlyph` says (row in `[1, len(buf)]`); the render uses one draw per DANGER glyph and fails only when draws run out |
| Rendering.RenderChannel | theone_ncurses.py:278-291 | the loop of `render_channel` computes `Rendered` |
| Scrolling.NewGenerator | ncurses/theone.py:50-52 | the generator stores one reversed, non-empty, whitespace-free message per word of `ciphers` |
| Scrolling.RandomUnicode | ncurses/theone.py:43-44 | `get_random_unicode(length)` gives `length` alphabet characters and consumes `length` draws |
| Scrolling.RandomCipher | theone.py:51-52 | with no words theone.py yields `''` without drawing and the other two raise IndexError; otherwise a stored message |
| Scrolling.GenerateMessage | ncurses/theone.py:58-60 | the message is `length` alphabet characters, or `length` characters, a cipher and `length` more; every character is legal; only IndexError (no words) and running out of draws stop it |
| Scrolling.SplicedShaped | ncurses/theone.py:60 | a cipher between two alphabet runs of `length` characters is a message of the second shape, `2*length + len(cipher)` long with the cipher in the middle |
| Scrolling.NoWordsRaises | ncurses/theone.py:55-60 | with no words a cipher roll makes `generate_message` raise IndexError |
| Scrolling.NoWordsBlankCipher | theone.py:51-56 | with no words theone.py's cipher branch yields `2*length` alphabet characters |
| Scrolling.PopulateChunk | ncurses/theone.py:84 | one chunk of `_populate_message` holds only legal characters and consumes at least one draw |
| Scrolling.Populated | ncurses/theone.py:81-84 | `_populate_message(head)` yields a string that starts with `head`, is longer than `2*HEIGHT` and holds only legal characters when `head` does |
| Scrolling.ScrollOf | ncurses/theone.py:86-92 | `scroll` keeps `0 <= _idx < HEIGHT` and `len(_message) > 2*HEIGHT`, and the new `message` starts with the old `message[1:]` |
| Scrolling.AtMostOneScroll | ncurses/theone.py:86-92 | the relation "unchanged, or scrolled exactly once" between two column states |
| Scrolling.MaybeScroll | ncurses/theone.py:152-155 | one column's turn scrolls it at most once and keeps it valid |
| Scrolling.ScrollPass | ncurses/theone.py:152-155 | the scrolling pass leaves the columns before `k` as they are |
| Scrolling.ScrollPassKeepsColumns | ncurses/theone.py:152-155 | the pass keeps every column valid and scrolls each at most once |
| Scrolling.MessageChannel.constructor | ncurses/theone.py:71-74 | a new column has the given generator and HEIGHT |
| Scrolling.MessageChannel.Create | ncurses/theone.py:71-75 | `__init__` populates from HEIGHT blanks, as `Populated` specifies |
| Scrolling.MessageChannel.Populate | ncurses/theone.py:77-84 | the loop of `_populate_message` sets `_idx` to 0 and the string `Populated` specifies, which makes the column valid |
| Scrolling.MessageChannel.Scroll | ncurses/theone.py:86-92 | `scroll` moves the column to the state `ScrollOf` specifies and keeps it valid |
| Scrolling.MessageChannel.Visible | ncurses/theone.py:94-96 | `message` has more than HEIGHT characters, all legal |
| Scrolling.ScrollOne | ncurses/theone.py:154-155 | one column's turn computes `MaybeScroll` and changes only that column |
| Scrolling.ScrollTurn | ncurses/theone.py:152-155 | column `k`'s turn advances the pass by one column and leaves the others alone |
| Scrolling.ScrollChannels | ncurses/theone.py:152-155 | the loop over the columns leaves them in the states `ScrollPass` specifies and returns its outcome |
| Drainers.ScanShape | ncurses/theone.py:121-123 | the cipher scan keeps `_superencodedtill` when nothing matches and otherwise sets it to the end of some match |
| Drainers.ScanLastMatchWins | ncurses/theone.py:121-123 | the last matching cipher in list order decides `_superencodedtill`, even when it is shorter than an earlier one |
| Drainers.TillIsAnOccurrenceEnd | ncurses/theone.py:116-127 | after `k` calls of `__next__`, `_superencodedtill` is -1 or the end of an occurrence that starts before `k` |
| Drainers.FlagSound | ncurses/theone.py:113-127 | a flagged character lies inside an occurrence of a cipher message |
| Drainers.TillHolds | ncurses/theone.py:121-126 | inside an occurrence with no other match, `_superencodedtill` stays at its end |
| Drainers.FlagRun | ncurses/theone.py:107-127 | for a cipher occurrence at `p` of length `L` with no other match inside it, exactly positions `p..p+L-1` are flagged there, and position `p+L` is flagged iff a cipher starts at it |
| Drainers.ChannelMessageDrainer.constructor | ncurses/theone.py:103-105 | a new drainer reads the given column and has read nothing |
| Drainers.ChannelMessageDrainer.Iter | ncurses/theone.py:107-111 | `__iter__` snapshots the column's `message` and restarts at 0 with `_superencodedtill == -1` |
| Drainers.ChannelMessageDrainer.Scan | ncurses/theone.py:121-123 | the `for` loop computes `ScanCiphers` |
| Drainers.ChannelMessageDrainer.Next | ncurses/theone.py:116-127 | `__next__` returns the next character and advances, or raises IndexError past the end; the snapshot is never changed |
| Drainers.ChannelMessageDrainer.IsPartOfCipherMessage | ncurses/theone.py:113-114 | the character last returned is reported iff it is flagged |
| CipherFrames.PlainRowLayout | nocolor/theone.py:141-145 | an unmarked row over `j` columns is character `h` of each of them, in order |
| CipherFrames.PlainFrameLength | nocolor/theone.py:139-146 | an unmarked frame of `n` rows has `n * (WIDTH + 1)` characters |
| CipherFrames.RowStartIsProduct | nocolor/theone.py:139-146 | row `h` starts after `h * (WIDTH + 1)` characters |
| CipherFrames.PlainFrameGrows | nocolor/theone.py:139-146 | the frame of fewer rows is a prefix of the frame of more rows |
| CipherFrames.RowOfFrame | nocolor/theone.py:139-146 | row `h` of the unmarked frame is character `h` of every column, then a newline |
| CipherFrames.PlainFrameLayout | nocolor/theone.py:139-146 | the unmarked frame is HEIGHT rows of `WIDTH + 1` characters, row `h` holding character `h` of every column, then a newline |
| CipherFrames.RowWithoutMarkers | nocolor/theone.py:142-145 | removing `'!'` from a marked row leaves the unmarked row when no column character is `'!'` |
| CipherFrames.FrameWithoutMarkers | nocolor/theone.py:139-146 | removing `'!'` from the marked frame leaves the unmarked frame |
| CipherFrames.PlainFrameNewlines | nocolor/theone.py:146 | a frame of `n` rows has `n` newlines when no column character is a newline |
| CipherFrames.NoColorScreen | nocolor/theone.py:170 | the printed text holds no `'!'` |
| CipherFrames.NoColorScreenIsPlain | nocolor/theone.py:139-170 | the printed nocolor frame is the reversed unmarked frame, `HEIGHT * (WIDTH + 1)` characters with HEIGHT newlines |
| CipherFrames.LegalIsNoMarker | ncurses/theone.py:140-141 | under a marker-free generator no column character is `'!'` or a newline |
| CipherFrames.GeneratorMarkerFree | nocolor/theone.py:45-47 | over a rain alphabet the generator is marker-free exactly when the cipher argument has no `'!'` |
| CipherFrames.CipherWordsCarry | nocolor/theone.py:46-47 | a `'!'` in the cipher argument ends up in a stored cipher message, so `replace` would strip it too |
| CipherFrames.CursesGeneratorMarkerFree | ncurses/theone.py:22-52 | the ncurses/nocolor generator is marker-free exactly when the cipher argument has no `'!'` |
| CipherFrames.VisiblesTall | ncurses/theone.py:94-96 | valid columns each supply HEIGHT characters |
| CipherFrames.ColumnsFitFrame | ncurses/theone.py:145-148 | the columns supply HEIGHT characters each, none of them `'!'` or a newline under a marker-free generator |
| CipherFrames.NoColorFrame | nocolor/theone.py:139-170 | for columns in any valid states, what nocolor prints is the reversed unmarked frame with HEIGHT newlines and `HEIGHT * (WIDTH + 1)` characters |
| CipherFrames.InitialColumnsShape | ncurses/theone.py:130-131 | `__init__` builds WIDTH columns, each valid with offset 0 and starting with HEIGHT blanks |
| CipherFrames.Matrix.Create | ncurses/theone.py:130-132 | `Matrix(messagegenerator)` builds WIDTH fresh valid columns in the states `InitialColumns` specifies, each with its own drainer |
| CipherFrames.Matrix.CreateColumns | ncurses/theone.py:131 | the list comprehension builds the columns one after another from the tape, as `InitialColumns` specifies, exception included |
| CipherFrames.Matrix.CreateDrainers | ncurses/theone.py:132 | one fresh, distinct drainer per column, in order |
| CipherFrames.Matrix.IterAll | ncurses/theone.py:145 | `iter(d)` on every drainer snapshots every column's visible text |
| CipherFrames.Matrix.DrainCell | ncurses/theone.py:148-150 | `next(d)` and the flag check add the character, then `'!'` when it is flagged |
| CipherFrames.Matrix.DrainRow | ncurses/theone.py:147-150 | one pass over the drainers builds the marked row `h` and moves every drainer on by one |
| CipherFrames.Matrix.DrainRows | ncurses/theone.py:146-151 | the nested loop builds the HEIGHT marked rows, each ended by a newline |
| CipherFrames.Matrix.ReadFrame | ncurses/theone.py:144-151 | reading the frame through the drainers leaves every column unchanged |
| CipherFrames.Matrix.ColumnsKept | ncurses/theone.py:107-127 | iteration never modifies a column: the columns stay valid and in the same states |
| CipherFrames.Matrix.DrawFrame | ncurses/theone.py:144-151 | the frame is built from the columns as they were before any scrolling |
| CipherFrames.Matrix.ScrollAll | ncurses/theone.py:152-155 | the final loop scrolls the columns as `ScrollPass` specifies and leaves the drainers alone |
| CipherFrames.Matrix.GetScreenAndScroll | ncurses/theone.py:134-156 | the result is the reversed marked frame of the columns before scrolling; afterwards each column has scrolled at most once and is still valid |
| HeadFrames.TheOneNeverRaises | theone.py:51-56 | theone.py's `generate_message` and `_populate_message` raise nothing, with or without cipher words |
| HeadFrames.WrappedReads | theone.py:112 | after reversal a wrapped character reads ESC `[96m`, the character, ESC `[92m` |
| HeadFrames.HeadCellReads | theone.py:111-115 | on screen a cell reads as its character, inside the colour escapes exactly when colour is on, the previous character in the column exists and is whitespace, and the character is not |
| HeadFrames.HeadRowPlain | theone.py:108-116 | without colour, and in the first row always, a row is the plain row, so the first row is never wrapped |
| HeadFrames.HeadFramePlain | theone.py:104-116 | without colour the frame is the plain frame |
| HeadFrames.LastRowOnTop | theone.py:121 | the reversal puts the row built last on top: a newline, that row reversed, then the earlier rows reversed |
| HeadFrames.PlainScreen | theone.py:104-121 | with `showcolor` false the result is the reversal of HEIGHT rows of `WIDTH + 1` characters, row `h` holding character `h` of every column in order, then a newline |
| HeadFrames.DrawRow | theone.py:109-115 | one pass of the inner loop builds row `h` and leaves `lastmessage[k]` holding character `h` of column `k` |
| HeadFrames.DrawFrame | theone.py:104-116 | the nested loop, with `lastmessage` starting all None, builds the HEIGHT rows `HeadFrame` specifies |
| HeadFrames.Matrix.constructor | theone.py:95-96 | a matrix holds the given generator, HEIGHT and columns |
| HeadFrames.Matrix.Create | theone.py:95-96 | `Matrix(messagegenerator)` builds WIDTH fresh valid columns in the states `InitialColumns` specifies |
| HeadFrames.Matrix.ReadTexts | theone.py:105 | `[iter(ch.message) ...]` reads every column's visible text, at least HEIGHT characters each |
| HeadFrames.Matrix.Screen | theone.py:104-121 | the returned text is the reversed frame of the current columns; nothing changes |
| HeadFrames.Matrix.GetScreenAndScroll | theone.py:98-121 | the result is the reversed frame of the columns before scrolling; afterwards each column has scrolled at most once and is still valid |

## Left out

- asyncio: `asyncio.Lock`, `await asyncio.sleep(...)`, task creation and `asyncio.wait` in theone_ncurses.py. Each ring-buffer operation is one atomic step, and `process` is modelled as one iteration, `Channels.MatrixChannel.Step`, not as the endless loop. `channeldelay`, a local of that loop, is a field of the channel.
- Terminal I/O: curses calls (`addstr`, `refresh`, `getch`, `init_pair`, `curs_set`, `nodelay`), `os.system` clears, `print` and `sys.stdout` writes. `render_channel` returns its `addstr` calls as a list of `Draw` values instead.
- ncurses/theone.py's main loop, which splits the frame at `'!'` to colour cipher characters, is terminal output and is not modelled.
- theone.py's main loop, which writes the frame after ESC `[H` ESC `[J` when `--vt100` is given, is terminal output and is not modelled.
- theone_ncurses.py's `splash_screen` animation, the `MatrixChannelRenderer` singleton (`get_instance`, `register_channel`) and the `render` loop with its `q` key check: timed output and input polling.
- argparse `main` / `__main__` blocks:
  - `WIDTH = width - 1`, `HEIGHT = height - 2` and the global mutation become constructor parameters;
  - `args.cipher or ''` in theone.py becomes the generator's `ciphers` argument;
  - the density default of 10 becomes the `density` parameter.
- Probabilities (1/51 for DANGER, 2/1001 for a cipher, 60/101 for a scroll, density/101): draws are inputs, and frequencies are not stated.
- RingBuffers.RingBuffer.constructor: the model requires a capacity of at least 1. With `size_max == 0`, the source's list grows without bound and `len(data) == max` is never true.
- Channels.MatrixChannel.constructor and Channels.MatrixChannel.Create: the model requires `height >= 1`, because the channel's ring buffer has capacity `height`. The source behaves differently below 1:
  - With `renderer.height == 0`, the source builds the channel, with no blanks and a `RingBuffer(0)`. Its first `process` iteration then raises ValueError inside `new_message(channelid, 0)`, at `randint(1, 0)`; `Glyphs.DegenerateLengths` states that raise.
  - With a negative height, `randint(0, height)` in `__init__` raises ValueError.
- Scrolling.MessageChannel.Create: the model requires `HEIGHT >= 1`. `Populate`, `CipherFrames.Matrix.Create` and `HeadFrames.Matrix.Create` carry the same requirement. The source behaves differently below 1:
  - With `HEIGHT == 0`, `_populate_message` keeps adding empty blank chunks until a generated message raises at `randint(1, 0)`.
  - With `HEIGHT < 0` (nocolor or theone.py started with `--height 1`, so `HEIGHT = -1`), `' ' * HEIGHT` is `''` and the loop `while len(self._message) <= 2 * HEIGHT` never runs. Nothing is drawn and nothing raises. Every `scroll` re-populates the empty string, and the program goes on printing empty frames. The model does not capture this working, empty-frame program.
- Scrolling.MessageChannel.Populate: on an exception the source leaves `_idx` at 0 and `_message` partly topped up. The model leaves the column as it was. In every variant such an exception ends the program.
- Scrolling.MessageChannel.Scroll: on an exception from `_populate_message` the source has already advanced `_idx`. The model leaves the column as it was.
- Channels.MatrixChannel.Step: on an exception the source has already extended or popped the deque. The model leaves the channel as it was.
- `Exhausted`, the error for a tape that runs out, has no counterpart in the source: a real generator never runs dry. Every contract states what happens when enough draws are left.
- `new_message`'s `channelid` argument and the `renderer` handed to `MatrixChannel` are unused by the core, apart from `renderer.height`, which is the `height` parameter.
