/** Failure-compatible result types and the reasons a map text is refused.

    The C# code signals every refusal of a map text by throwing; here the parser
    returns a `Result` instead. Most refusals are `InitializationMapException`s
    with a message; two are other .NET exceptions that the same code raises
    (a numeric field that is not a number, and an index past the end of an
    array). Message text is abstracted to the cause and its data. */
module Results {

  datatype Option<+T> = None | Some(value: T)

  /** The kind of line a message talks about ("map", "mountain", ...). */
  datatype EntityKind = MapEntity | MountainEntity | TreasureEntity | AdventurerEntity

  /** Why a map text was refused, in the order the parser can discover them. */
  datatype InitializationError =
    | NoData                               // no non-blank line at all
    | NotMapInitialization                 // first data line's tag is not "C"
    | TooManyArguments(entity: EntityKind) // more '-'-separated fields than expected
    | NotEnoughArguments(entity: EntityKind)
    | NegativeNumber                       // a '-' immediately followed by 1..9
    | InvalidOrientation(c: char)
    | InvalidInstruction(c: char)
    | OutOfBounds(entity: EntityKind, x: int, y: int)
    | Overlapping                          // two mountains/adventurers on one cell
    | NotANumber                           // int.Parse throws FormatException
    | IndexOutOfRange                      // indexing an empty array or string

  /** True for the refusals the C# code raises as InitializationMapException;
      the other two are .NET runtime exceptions escaping the parser. */
  predicate IsInitializationMapException(e: InitializationError) {
    !(e.NotANumber? || e.IndexOutOfRange?)
  }

  datatype Result<+T> = Success(value: T) | Failure(error: InitializationError) {
    predicate IsFailure() {
      Failure?
    }

    function PropagateFailure<U>(): Result<U>
      requires Failure?
    {
      Failure(error)
    }

    function Extract(): T
      requires Success?
    {
      value
    }
  }

  /** A check that either passes or refuses, like `MapParser`'s `Verify...` methods. */
  function Check(condition: bool, error: InitializationError): (r: Result<()>)
    ensures r.Success? <==> condition
    ensures r.Failure? ==> r.error == error
  {
    if condition then Success(()) else Failure(error)
  }

  /** Applies a refusing step to every element in order and stops at the first
      refusal, like a `foreach` loop whose body may throw. On success the values
      are the steps' values, element by element. */
  function MapAll<A, B>(s: seq<A>, f: A -> Result<B>): (r: Result<seq<B>>)
    ensures r.Success? <==> forall i :: 0 <= i < |s| ==> f(s[i]).Success?
    ensures r.Failure? ==> exists i :: 0 <= i < |s| && f(s[i]) == Failure(r.error) &&
                                  forall j :: 0 <= j < i ==> f(s[j]).Success?
    decreases |s|
  {
    if |s| == 0 then
      Success([])
    else
      var head :- f(s[0]);
      var rest :- MapAll(s[1..], f);
      assert forall i :: 1 <= i < |s| ==> s[i] == s[1..][i - 1];
      Success([head] + rest)
  }

  /** On success the values are the elements' values, position by position. */
  lemma {:induction false} MapAllValues<A, B>(s: seq<A>, f: A -> Result<B>)
    requires MapAll(s, f).Success?
    ensures |MapAll(s, f).value| == |s|
    ensures forall i :: 0 <= i < |s| ==> MapAll(s, f).value[i] == f(s[i]).value
    decreases |s|
  {
    if |s| > 0 {
      MapAllValues(s[1..], f);
      assert forall i :: 1 <= i < |s| ==> s[i] == s[1..][i - 1];
    }
  }

  /** The refusal of the first failing element is the refusal of the whole. */
  lemma MapAllFirstFailure<A, B>(s: seq<A>, f: A -> Result<B>, i: int)
    requires 0 <= i < |s| && f(s[i]).Failure?
    requires forall j :: 0 <= j < i ==> f(s[j]).Success?
    ensures MapAll(s, f) == Failure(f(s[i]).error)
  {
    var r := MapAll(s, f);
    var k :| 0 <= k < |s| && f(s[k]) == Failure(r.error) && forall j :: 0 <= j < k ==> f(s[j]).Success?;
    assert !(k < i) && !(i < k);
  }

  /** When every element succeeds, the values are exactly the given ones. */
  lemma MapAllSuccess<A, B>(s: seq<A>, f: A -> Result<B>, values: seq<B>)
    requires |values| == |s|
    requires forall j :: 0 <= j < |s| ==> f(s[j]) == Success(values[j])
    ensures MapAll(s, f) == Success(values)
  {
    var r := MapAll(s, f);
    assert r.Success?;
    MapAllValues(s, f);
    assert forall j :: 0 <= j < |s| ==> r.value[j] == values[j];
    assert r.value == values;
  }

  /** One more succeeding element extends the values by its value. */
  lemma MapAllExtend<A, B>(s: seq<A>, i: int, f: A -> Result<B>)
    requires 0 <= i < |s| && MapAll(s[..i], f).Success? && f(s[i]).Success?
    ensures MapAll(s[..i + 1], f) == Success(MapAll(s[..i], f).value + [f(s[i]).value])
  {
    var prefix := s[..i + 1];
    MapAllValues(s[..i], f);
    var values := MapAll(s[..i], f).value + [f(s[i]).value];
    forall j | 0 <= j < |prefix| ensures f(prefix[j]) == Success(values[j]) {
      if j < i {
        assert prefix[j] == s[..i][j];
      }
    }
    MapAllSuccess(prefix, f, values);
  }

  /** A failing element after a succeeding prefix decides the whole result. */
  lemma MapAllStop<A, B>(s: seq<A>, i: int, f: A -> Result<B>)
    requires 0 <= i < |s| && MapAll(s[..i], f).Success? && f(s[i]).Failure?
    ensures MapAll(s, f) == Failure(f(s[i]).error)
  {
    forall j | 0 <= j < i ensures f(s[j]).Success? {
      assert s[j] == s[..i][j];
    }
    MapAllFirstFailure(s, f, i);
  }
}
