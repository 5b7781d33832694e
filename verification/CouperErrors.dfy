/** errors/error.go as far as the sequence engine uses it. */
module CouperErrors {
  import opened Options

  /** A Go error: either Couper's own type or any other one. */
  datatype Err =
    | Foreign(text: string)
    | Couper(kinds: seq<string>, inner: Inner)

  /** The inner error of Couper's own type. NoError is a nil *Error in a non-nil interface. */
  datatype Inner = Nothing | NoError | Wraps(err: Err)

  /** The kinds of an error and of those it wraps, or None where Kinds dereferences a nil *Error. */
  function Kinds(e: Err): Option<seq<string>>
    requires e.Couper?
  {
    match e.inner
    case Nothing => Some(e.kinds)
    case NoError => None
    case Wraps(inner) =>
      if inner.Foreign? then Some(e.kinds)
      else
        match Kinds(inner)
        case None => None
        case Some(kinds) => Some(kinds + e.kinds)
  }

  const SEQUENCE_KINDS := ["sequence", "endpoint"]

  /** errors.Sequence.With */
  function Sequence(inner: Inner): Err {
    Couper(SEQUENCE_KINDS, inner)
  }

  /** What a dependent does about the error of a dependency. */
  datatype Verdict = Panics | Keeps | Replaces(err: Err)

  /** The error becomes a sequence error unless it is one. An error of a foreign type is
      replaced by a sequence error around a nil *Error, whose kinds cannot be read. */
  function Judge(e: Err): Verdict {
    if e.Foreign? then Replaces(Sequence(NoError))
    else
      match Kinds(e)
      case None => Panics
      case Some(kinds) => if "sequence" in kinds then Keeps else Replaces(Sequence(Wraps(e)))
  }

  /** The replacement of an error of Couper's own type keeps it as the cause: its kinds are those
      of the error, followed by those of a sequence error. */
  lemma ReplacementKeepsCause(e: Err)
    requires e.Couper? && Kinds(e).Some? && "sequence" !in Kinds(e).value
    ensures Judge(e).Replaces? && Judge(e).err.Couper? && Judge(e).err.inner == Wraps(e)
    ensures Kinds(Judge(e).err) == Some(Kinds(e).value + ["sequence", "endpoint"])
  {
  }

  /** A foreign error is replaced by one whose kinds cannot be read, and which says nothing about
      the cause; a sequence error is kept. */
  lemma OtherErrors(e: Err)
    ensures e.Foreign? ==>
      Judge(e).Replaces? && Judge(e).err == Couper(["sequence", "endpoint"], NoError) && Kinds(Judge(e).err).None?
    ensures e.Couper? && Kinds(e).None? ==> Judge(e).Panics?
    ensures e.Couper? && Kinds(e).Some? && "sequence" in Kinds(e).value ==> Judge(e).Keeps?
  {
  }

  /** A replacement is never replaced again: it is kept if the error was Couper's own, and
      cannot be read if it was not. */
  lemma ReplacementIsFinal(e: Err)
    requires Judge(e).Replaces?
    ensures Judge(Judge(e).err) == if e.Foreign? then Panics else Keeps
  {
    if e.Couper? {
      var kinds := Kinds(e).value;
      assert (kinds + SEQUENCE_KINDS)[|kinds|] == "sequence";
    }
  }
}
