/** Day 6, tuning trouble: the end of the first window of distinct characters. */
module Day06 {
  import opened Wrappers
  import opened Lists

  /** `drop(i).take(length)`: the window at i, cut short at the end of the stream. */
  function Window(stream: string, i: nat, length: nat): string
    requires i <= |stream|
  {
    if i + length <= |stream| then stream[i..i + length] else stream[i..]
  }

  /** A full-length window whose characters are pairwise distinct. */
  predicate Unique(stream: string, i: nat, length: nat) {
    i + length <= |stream| && AllDistinct(stream[i..i + length])
  }

  /** The window at i is accepted exactly when it is a unique full window. */
  lemma AcceptedIffUnique(stream: string, i: nat, length: nat)
    requires i <= |stream|
    ensures |Elements(Window(stream, i, length))| == length <==> Unique(stream, i, length)
  {
    ElementsCount(Window(stream, i, length));
  }

  /** The scan from window i onward. */
  function FindFrom(stream: string, length: nat, i: nat): (r: Result<int>)
    requires i <= |stream|
    ensures r.Ok? ==> exists j :: i <= j < |stream| && Unique(stream, j, length) && r.value == j + length
    ensures r.Ok? ==> forall j | i <= j && j + length < r.value :: !Unique(stream, j, length)
    ensures r.Err? <==> forall j | i <= j < |stream| :: !Unique(stream, j, length)
    decreases |stream| - i
  {
    if i == |stream| then Err("Could not find unique sequence of characters")
    else
      AcceptedIffUnique(stream, i, length);
      if |Elements(Window(stream, i, length))| == length then Ok(i + length)
      else FindFrom(stream, length, i + 1)
  }

  /** `findUniqueSequenceOffset`: the position just after the first window of
      `sequenceLength` distinct characters; a negative length is rejected by
      `take`, and a stream without such a window fails. */
  function FindUniqueSequenceOffset(stream: string, sequenceLength: int): (r: Result<int>)
    ensures sequenceLength < 0 ==> r.Err?
    ensures r.Ok? ==> 0 <= sequenceLength <= r.value <= |stream|
    ensures r.Ok? ==> AllDistinct(stream[r.value - sequenceLength..r.value])
    ensures r.Ok? ==> forall j | 0 <= j && j + sequenceLength < r.value :: !Unique(stream, j, sequenceLength)
    ensures sequenceLength >= 0 ==>
      (r.Err? <==> forall j | 0 <= j < |stream| :: !Unique(stream, j, sequenceLength))
  {
    if sequenceLength < 0 then Err("Requested element count is less than zero")
    else FindFrom(stream, sequenceLength, 0)
  }
}
