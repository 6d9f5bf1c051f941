/**
 * The autoregressive generation loop (app.py:49-70). The trained network and
 * the random number generator are not part of the model: the network is a
 * scoring function passed in, and every random draw is a nondeterministic
 * choice constrained only by its range.
 */
module Generator {
  import opened Wrappers
  import opened Vocabulary
  import opened SlidingWindow

  /** Number of indices in the context window (app.py:13). */
  const SequenceLength: nat := 50

  /** Why a generation run can fail. */
  datatype GenError =
    /** A uniform integer draw was asked for an empty range [low, high), low >= high. */
    | EmptyRange(low: int, high: int)

  /**
   * `size` integers drawn uniformly from [low, high), as the random seed window
   * is drawn (app.py:51); raises on an empty range.
   */
  method RandInt(low: int, high: int, size: nat) returns (r: Result<seq<int>, GenError>)
    ensures r.Failure? <==> low >= high
    ensures r.Failure? ==> r.error == EmptyRange(low, high)
    ensures r.Success? ==> |r.value| == size
    ensures r.Success? ==> forall i :: 0 <= i < |r.value| ==> low <= r.value[i] < high
  {
    if low >= high {
      return Failure(EmptyRange(low, high));
    }
    var drawn: seq<int> := [];
    for k := 0 to size
      invariant |drawn| == k
      invariant forall i :: 0 <= i < k ==> low <= drawn[i] < high
    {
      var x :| low <= x < high;
      drawn := drawn + [x];
    }
    r := Success(drawn);
  }

  /**
   * One temperature-controlled draw from the scorer's prediction
   * (app.py:59-63). The rescaled distribution has one entry per entry of
   * `prediction`, and the draw is some index of it.
   */
  method SampleWithTemperature(prediction: seq<real>, temperature: real) returns (index: nat)
    requires |prediction| > 0
    ensures index < |prediction|
  {
    index :| index < |prediction|;
  }

  /**
   * The scorer's input: each window index divided by the vocabulary size
   * (app.py:55), which puts every entry in [0, 1).
   */
  function Scaled(window: seq<int>, n: nat): (x: seq<real>)
    requires n > 0 && InRange(window, n)
    ensures |x| == |window|
    ensures forall i :: 0 <= i < |x| ==> x[i] * (n as real) == window[i] as real
    ensures forall i :: 0 <= i < |x| ==> 0.0 <= x[i] < 1.0
  {
    var x := seq(|window|, i requires 0 <= i < |window| => window[i] as real / n as real);
    assert forall i :: 0 <= i < |x| ==> 0.0 <= x[i] < 1.0 by {
      forall i | 0 <= i < |x| ensures 0.0 <= x[i] < 1.0 {
        QuotientBelowOne(window[i] as real, n as real);
      }
    }
    x
  }

  /** A non-negative value below a positive bound, divided by that bound, lies in [0, 1). */
  lemma QuotientBelowOne(a: real, b: real)
    requires 0.0 <= a < b
    ensures 0.0 <= a / b < 1.0
  {
  }

  /**
   * generate_music: seed a random window, then `length` times score the
   * window, draw an index, emit its note and slide the index into the
   * window. `seed`, `draws` and `window` report the random seed, the
   * indices drawn in order and the final window.
   */
  method GenerateMusic(vocab: Vocab, scorer: seq<real> -> seq<real>, length: int, temperature: real)
    returns (result: Result<seq<Note>, GenError>, ghost seed: seq<int>, ghost draws: seq<int>, ghost window: seq<int>)
    requires vocab.Valid()
    requires forall x :: |scorer(x)| == vocab.size
    ensures result.Failure? <==> vocab.size == 0
    ensures result.Failure? ==> result.error == EmptyRange(0, 0)
    ensures result.Success? ==> |seed| == SequenceLength && InRange(seed, vocab.size)
    ensures result.Success? ==> |draws| == (if length < 0 then 0 else length) && InRange(draws, vocab.size)
    ensures result.Success? ==> |result.value| == |draws|
    ensures result.Success? ==> forall i :: 0 <= i < |draws| ==> result.value[i] == vocab.intToNote[draws[i]]
    ensures result.Success? ==> window == Run(seed, draws) && window == LastN(seed + draws, SequenceLength)
  {
    var seeded := RandInt(0, vocab.size, SequenceLength);
    if seeded.Failure? {
      return Failure(seeded.error), [], [], [];
    }
    var pattern := seeded.value;
    seed, draws := pattern, [];
    var outputNotes: seq<Note> := [];
    var steps := if length < 0 then 0 else length;
    for k := 0 to steps
      invariant |draws| == k && |outputNotes| == k
      invariant InRange(draws, vocab.size)
      invariant forall i :: 0 <= i < k ==> outputNotes[i] == vocab.intToNote[draws[i]]
      invariant pattern == Run(seed, draws)
      invariant InRange(pattern, vocab.size)
    {
      var x := Scaled(pattern, vocab.size);
      var prediction := scorer(x);
      var index := SampleWithTemperature(prediction, temperature);
      var note := vocab.intToNote[index];
      outputNotes := outputNotes + [note];
      pattern := pattern + [index];
      pattern := pattern[1..];
      assert draws + [index] == (draws + [index])[..k] + [index];
      draws := draws + [index];
    }
    RunIsSuffix(seed, draws);
    window := pattern;
    result := Success(outputNotes);
  }
}
