/** `DaoFactory.create`: asks each registered `DaoRegistry` in turn for an
    implementation of a DAO interface. */
module DaoFactories {

  import opened Wrappers

  /** `DaoRegistry.get(daoClass, connection)`, with the interface given by
      its name: an implementation bound to the connection, or none. */
  type Registry<-C, D> = (string, C) -> Option<D>

  /** The answer of the first registry, in the loader's order, that has one. */
  function FirstHit<C, D>(registries: seq<Registry<C, D>>, daoClass: string, connection: C): Option<D>
  {
    if registries == [] then None
    else if registries[0](daoClass, connection).Some? then registries[0](daoClass, connection)
    else FirstHit(registries[1..], daoClass, connection)
  }

  function NotFound(daoClass: string): Exception
  {
    IllegalArgument("Dao not found: " + daoClass)
  }

  /** `FirstHit` finds an answer exactly when some registry gives one, and
      then it is the answer of the first such registry. */
  lemma {:induction false} FirstHitIsFirst<C, D>(registries: seq<Registry<C, D>>, daoClass: string, connection: C)
    ensures FirstHit(registries, daoClass, connection).Some? <==>
      exists i :: 0 <= i < |registries| && registries[i](daoClass, connection).Some?
    ensures FirstHit(registries, daoClass, connection).Some? ==>
      exists i :: 0 <= i < |registries| && registries[i](daoClass, connection) == FirstHit(registries, daoClass, connection)
        && forall j :: 0 <= j < i ==> registries[j](daoClass, connection).None?
  {
    if registries != [] && registries[0](daoClass, connection).None? {
      var tail := registries[1..];
      FirstHitIsFirst(tail, daoClass, connection);
      if FirstHit(tail, daoClass, connection).Some? {
        var i :| 0 <= i < |tail| && tail[i](daoClass, connection) == FirstHit(tail, daoClass, connection)
          && forall j :: 0 <= j < i ==> tail[j](daoClass, connection).None?;
        assert registries[i + 1] == tail[i];
        assert forall j :: 0 <= j < i + 1 ==> registries[j](daoClass, connection).None? by {
          forall j | 0 <= j < i + 1
            ensures registries[j](daoClass, connection).None?
          {
            if j > 0 {
              assert registries[j] == tail[j - 1];
            }
          }
        }
      }
      if exists i :: 0 <= i < |registries| && registries[i](daoClass, connection).Some? {
        var i :| 0 <= i < |registries| && registries[i](daoClass, connection).Some?;
        assert tail[i - 1] == registries[i];
      }
    }
  }

  /** Registries after the first one that answers are never consulted:
      whatever follows, the answer is the same. */
  lemma {:induction false} LaterRegistriesIgnored<C, D>(registries: seq<Registry<C, D>>, later: seq<Registry<C, D>>,
                                                      daoClass: string, connection: C)
    requires FirstHit(registries, daoClass, connection).Some?
    ensures FirstHit(registries + later, daoClass, connection) == FirstHit(registries, daoClass, connection)
  {
    if registries[0](daoClass, connection).None? {
      assert (registries + later)[1..] == registries[1..] + later;
      LaterRegistriesIgnored(registries[1..], later, daoClass, connection);
    }
  }

  /** `create`: the first registry's answer; with no answer, including when
      there are no registries at all, `IllegalArgumentException`. */
  method Create<C, D>(registries: seq<Registry<C, D>>, daoClass: string, connection: C) returns (r: Result<D>)
    ensures FirstHit(registries, daoClass, connection).Some? ==> r == Ok(FirstHit(registries, daoClass, connection).value)
    ensures FirstHit(registries, daoClass, connection).None? ==> r == Throw(NotFound(daoClass))
  {
    var i := 0;
    while i < |registries|
      invariant 0 <= i <= |registries|
      invariant FirstHit(registries, daoClass, connection) == FirstHit(registries[i..], daoClass, connection)
    {
      var dao := registries[i](daoClass, connection);
      if dao.Some? {
        return Ok(dao.value);
      }
      assert registries[i..][1..] == registries[i + 1..];
      i := i + 1;
    }
    r := Throw(NotFound(daoClass));
  }
}
