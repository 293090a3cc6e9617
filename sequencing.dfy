/** Writing a sequence of parts, each of which may throw, stopping at the
    first exception. */
module Sequencing {

  import opened Wrappers

  /** The texts in order, joined; the first exception stops the sequence
      and is the result. */
  function Sequenced(parts: seq<Result<string>>): Result<string>
  {
    if parts == [] then Ok("")
    else
      match Sequenced(parts[..|parts| - 1])
      case Throw(e) => Throw(e)
      case Ok(t) =>
        match parts[|parts| - 1]
        case Throw(e) => Throw(e)
        case Ok(x) => Ok(t + x)
  }

  /** Sequencing succeeds exactly when every part does. */
  lemma {:induction false} SequencedOkIff(parts: seq<Result<string>>)
    ensures Sequenced(parts).Ok? <==> forall i :: 0 <= i < |parts| ==> parts[i].Ok?
  {
    if parts != [] {
      var init := parts[..|parts| - 1];
      SequencedOkIff(init);
      assert forall i :: 0 <= i < |init| ==> init[i] == parts[i];
    }
  }

  /** A failure is that of the first failing part. */
  lemma {:induction false} SequencedFirstError(parts: seq<Result<string>>, k: nat)
    requires k < |parts| && parts[k].Throw?
    requires forall i :: 0 <= i < k ==> parts[i].Ok?
    ensures Sequenced(parts) == Throw(parts[k].error)
  {
    var init := parts[..|parts| - 1];
    if k < |parts| - 1 {
      assert forall i :: 0 <= i < k ==> init[i] == parts[i];
      SequencedFirstError(init, k);
    } else {
      SequencedOkIff(init);
    }
  }

  /** Sequencing one more successful part appends its text. */
  lemma SequencedSnoc(parts: seq<Result<string>>, x: Result<string>)
    requires Sequenced(parts).Ok? && x.Ok?
    ensures Sequenced(parts + [x]) == Ok(Sequenced(parts).value + x.value)
  {
    assert (parts + [x])[..|parts|] == parts;
  }

  lemma SequencedSnocError(parts: seq<Result<string>>, x: Result<string>)
    requires Sequenced(parts).Ok? && x.Throw?
    ensures Sequenced(parts + [x]) == Throw(x.error)
  {
    assert (parts + [x])[..|parts|] == parts;
  }

  /** Once a prefix fails, every extension fails the same way. */
  lemma {:induction false} SequencedPrefixError(parts: seq<Result<string>>, k: nat)
    requires k <= |parts| && Sequenced(parts[..k]).Throw?
    ensures Sequenced(parts) == Sequenced(parts[..k])
    decreases |parts| - k
  {
    if k < |parts| {
      assert parts[..k + 1][..k] == parts[..k];
      SequencedPrefixError(parts, k + 1);
    } else {
      assert parts[..k] == parts;
    }
  }
}
