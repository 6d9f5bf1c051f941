/** The note vocabulary the generator draws from (app.py:21-24). */
module Vocabulary {

  /** A note symbol as stored in the vocabulary, e.g. "C4" or "4.7". */
  type Note = string

  /**
   * The table loaded at start-up: `intToNote` maps a vocabulary index to its
   * note symbol and `size` is n_vocab, the number of distinct notes.
   */
  datatype Vocab = Vocab(intToNote: map<int, Note>, size: nat) {

    /** Every index in [0, size) has a note, as the table built from the distinct notes does. */
    predicate Valid() {
      forall i :: 0 <= i < size ==> i in intToNote
    }
  }
}
