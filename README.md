# neuro-beats generation core in Dafny

This project models the note-generation core of a small web service that writes
music with an LSTM network. The core has two parts:

- `generate_music` seeds a window of 50 random vocabulary indices. It then runs
  `length` steps. Each step scales the window by the vocabulary size, asks the
  network for a distribution over the vocabulary, draws an index with temperature
  sampling, emits that index's note, and slides the index into the window, dropping
  the oldest entry.
- `save_midi` turns each generated symbol into a note object. Symbols that fail to
  parse are skipped without error. The surviving notes go to a MIDI stream.

Modules:

- `Wrappers` (wrappers.dfy): `Option` and `Result`.
- `Vocabulary` (vocabulary.dfy): the loaded `int_to_note` table and `n_vocab`, as
  the `Vocab` datatype. `Vocab.Valid()` says every index in `[0, n_vocab)` has a note.
- `SlidingWindow` (window.dfy): the window update `Slide`. `Run` is its step-by-step
  reference over a sequence of draws. The lemmas give the closed form: after any
  number of steps the window is the last 50 entries of seed followed by the draws,
  and it stays within the vocabulary range.
- `Generator` (generator.dfy): `RandInt` (the seed draw), `SampleWithTemperature`
  (the per-step draw), `Scaled` (the scorer's input) and `GenerateMusic` (the loop).
  The network is an abstract scorer `seq<real> -> seq<real>` whose output has
  `n_vocab` entries, which is what the softmax head of size `n_vocab` gives.
  Every random draw is a nondeterministic choice, constrained only by its range.
  `GenerateMusic` also reports the seed, the drawn indices and the final window as
  ghost out-parameters. Its postconditions are stated in terms of those values.
- `MidiSave` (midi.dfy): the filter loop of `save_midi` as the method `SaveMidi`,
  specified by the function `Parsed`. `ParsingPositions` is an independent
  description of which entries survive. The lemmas connect the two: the kept notes
  are exactly the parses of the entries that parse, in input order. Parsing is an
  abstract function `Note -> Option<N>`; `None` means the note constructor raised.

An empty vocabulary is modelled as an error, not excluded by a precondition.
`np.random.randint(0, 0, ...)` raises before the loop starts, so `GenerateMusic`
returns `Failure(EmptyRange(0, 0))` exactly when `n_vocab` is 0.

A negative `length` behaves like 0, as `range(length)` is empty. The result is then
an empty list.

## Model

| member | source | states |
|---|---|---|
| SlidingWindow.Slide | app.py:67-68 | appending the new index and dropping the oldest keeps the window length; the new index is last and every other entry moves one place towards the front |
| SlidingWindow.Run | app.py:54-68 | after any number of steps the window has the same length as the seed window |
| SlidingWindow.SlideLastN | app.py:67-68 | sliding an index into the last k entries of a history gives the last k entries of the history extended by that index |
| SlidingWindow.RunIsSuffix | app.py:51-68 | after k steps the window equals the last SEQUENCE_LENGTH entries of the seed followed by the first k drawn indices |
| SlidingWindow.RunInRange | app.py:51-68 | a seed of vocabulary indices fed only vocabulary indices keeps every window entry in [0, n_vocab) |
| Generator.RandInt | app.py:51 | the seed draw fails exactly when the range [low, high) is empty; otherwise it yields `size` integers, each in [low, high) |
| Generator.SampleWithTemperature | app.py:59-63 | the drawn index is an index of the prediction vector |
| Generator.Scaled | app.py:55 | the scorer input has one entry per window index, that entry times n_vocab is the index, and every entry lies in [0, 1) |
| Generator.GenerateMusic | app.py:49-70 | fails exactly when n_vocab is 0; otherwise the seed has SEQUENCE_LENGTH in-range entries, exactly max(length, 0) indices are drawn, all in [0, n_vocab), the i-th note is int_to_note of the i-th drawn index, and the final window is the step-by-step slide of the seed and equals the last SEQUENCE_LENGTH entries of seed followed by the draws |
| MidiSave.Parsed | app.py:76-81 | the kept notes are never more than the input entries |
| MidiSave.ParsingPositions | app.py:77-81 | the surviving positions are positions of the input |
| MidiSave.ParsedAtPositions | app.py:77-81 | there is one kept note per surviving position, and the j-th kept note is the parse of the entry at the j-th surviving position |
| MidiSave.PositionsAscending | app.py:77-81 | surviving positions are strictly increasing, so the kept notes keep the input order |
| MidiSave.PositionsExact | app.py:77-81 | a position survives if and only if its entry parses |
| MidiSave.AllParseKeepsAll | app.py:77-81 | when every entry parses, every entry is kept, each as its own parse |
| MidiSave.NoneParseKeepsNone | app.py:77-81 | when no entry parses, nothing is kept, and no error is raised |
| MidiSave.SaveMidi | app.py:75-81 | the loop's result is the parses of the entries that parse, in order, and there are no more of them than input entries |

## Left out

- Generator.SampleWithTemperature: the temperature rescaling (log of prediction plus 1e-9, divide by temperature, exp, normalise; app.py:59-61) is floating-point numerics. The draw is modelled only as some index of the prediction. The model says nothing about which index is likely. A temperature of 0 yields NaN probabilities, and `np.random.choice` would raise on them; that failure is not modelled. No temperature is rejected, as in the source.
- Generator.GenerateMusic: the model does not connect the draws to the scorer's output values, only to its length. The scorer's input shape (1, 50, 1) is flattened to a sequence of 50 reals, and exact rationals stand for floats.
- The network itself (app.py:29-44): its construction, compilation and weight loading are a foreign library. It appears only as the abstract scorer.
- Loading `note_to_int`, `int_to_note` and `unique_notes` from the pickle file (app.py:21-24) is file I/O. The vocabulary table and its size are inputs. That every index in [0, n_vocab) has a note is a precondition, `Vocab.Valid()`.
- music21 note parsing (app.py:79) is a foreign call. It is the abstract `parse` function.
- Writing the MIDI stream to a file (app.py:83-84) is file output. `SaveMidi` returns the list that would be written.
- The Flask app, its routes, form parsing and `send_file` (app.py:89-114), and creating the upload and output directories (app.py:15-16), are HTTP and file-system plumbing.
- The real randomness of `np.random.randint` and `np.random.choice` is nondeterministic choice within the range of each draw.
