/** The transaction-nesting state machine of a connection. The driver is
    seen only through the calls the connection makes on it, recorded in
    order; platform capabilities are fixed when the connection is made. */
module Connection {
  import opened Base
  import opened Errors

  /** What the connection asks of the driver and the platform. */
  datatype DriverCall =
    | DriverOpen
    | DriverBegin
    | DriverCommit
    | DriverRollback
    | ReleaseSavepoint(name: string)
    | RollbackSavepoint(name: string)

  /** A binding type: a PDO parameter code or a type name. */
  datatype BindingType = PdoParam(code: int) | TypeName(name: string)

  /** \PDO::PARAM_STR */
  const ParamStr: BindingType := PdoParam(2)

  const SavepointPrefix: string := "DOCTRINE2_SAVEPOINT_"

  /** The savepoint that guards nesting level `level`. */
  function SavepointName(level: int): (r: string)
    ensures |r| > |SavepointPrefix| && r[..|SavepointPrefix|] == SavepointPrefix
  {
    SavepointPrefix + IntToString(level)
  }

  /** Different nesting levels use different savepoints. */
  lemma SavepointNamesDistinct(l1: nat, l2: nat)
    requires l1 != l2
    ensures SavepointName(l1) != SavepointName(l2)
  {
    var s1, s2 := SavepointName(l1), SavepointName(l2);
    if s1 == s2 {
      assert s1[|SavepointPrefix|..] == NatToString(l1);
      assert s2[|SavepointPrefix|..] == NatToString(l2);
      NatToStringValue(l1);
      NatToStringValue(l2);
    }
  }

  /** The savepoint releases a run of nested commits asks for, from level
      `top` down to (not including) level `bottom`. */
  function Releases(top: int, bottom: int, release: bool): (r: seq<DriverCall>)
    decreases top - bottom
  {
    if top <= bottom then []
    else (if release then [ReleaseSavepoint(SavepointName(top))] else []) + Releases(top - 1, bottom, release)
  }

  lemma {:induction false} ReleasesStep(top: int, bottom: int, release: bool)
    requires top >= bottom
    ensures Releases(top, bottom - 1, release) ==
      Releases(top, bottom, release) + (if release then [ReleaseSavepoint(SavepointName(bottom))] else [])
    decreases top - bottom
  {
    var last: seq<DriverCall> := if release then [ReleaseSavepoint(SavepointName(bottom))] else [];
    if top == bottom {
      assert Releases(top - 1, bottom - 1, release) == [];
    } else {
      ReleasesStep(top - 1, bottom, release);
      var head: seq<DriverCall> := if release then [ReleaseSavepoint(SavepointName(top))] else [];
      assert Releases(top, bottom - 1, release) == head + Releases(top - 1, bottom - 1, release);
      assert Releases(top, bottom, release) == head + Releases(top - 1, bottom, release);
      assert head + (Releases(top - 1, bottom, release) + last) == (head + Releases(top - 1, bottom, release)) + last;
    }
  }

  /** One release per nested level, each naming its own savepoint. */
  lemma {:induction false} ReleasesNamed(top: int, bottom: int)
    ensures |Releases(top, bottom, true)| == if top > bottom then top - bottom else 0
    ensures forall i :: 0 <= i < |Releases(top, bottom, true)| ==>
      Releases(top, bottom, true)[i] == ReleaseSavepoint(SavepointName(top - i))
    ensures Releases(top, bottom, false) == []
    decreases top - bottom
  {
    ReleasesLength(top, bottom);
    forall i | 0 <= i < |Releases(top, bottom, true)|
      ensures Releases(top, bottom, true)[i] == ReleaseSavepoint(SavepointName(top - i))
    {
      ReleaseAt(top, bottom, i);
    }
  }

  lemma {:induction false} ReleasesLength(top: int, bottom: int)
    ensures |Releases(top, bottom, true)| == if top > bottom then top - bottom else 0
    ensures Releases(top, bottom, false) == []
    decreases top - bottom
  {
    if top > bottom {
      ReleasesLength(top - 1, bottom);
    }
  }

  /** The release at position `i` names the savepoint of level `top - i`. */
  lemma {:induction false} ReleaseAt(top: int, bottom: int, i: int)
    requires 0 <= i < top - bottom
    ensures i < |Releases(top, bottom, true)| && Releases(top, bottom, true)[i] == ReleaseSavepoint(SavepointName(top - i))
    decreases i
  {
    var rest := Releases(top - 1, bottom, true);
    assert Releases(top, bottom, true) == [ReleaseSavepoint(SavepointName(top))] + rest;
    if i > 0 {
      ReleaseAt(top - 1, bottom, i - 1);
      assert Releases(top, bottom, true)[i] == rest[i - 1];
    }
  }

  /** `extractTypeValues`: one binding type per data key, in data order,
      the given type when there is one and PARAM_STR otherwise. */
  method ExtractTypeValues(dataKeys: seq<string>, types: map<string, BindingType>) returns (typeValues: seq<BindingType>)
    ensures |typeValues| == |dataKeys|
    ensures forall i :: 0 <= i < |dataKeys| && dataKeys[i] in types ==> typeValues[i] == types[dataKeys[i]]
    ensures forall i :: 0 <= i < |dataKeys| && dataKeys[i] !in types ==> typeValues[i] == ParamStr
  {
    typeValues := [];
    for n := 0 to |dataKeys|
      invariant |typeValues| == n
      invariant forall i :: 0 <= i < n && dataKeys[i] in types ==> typeValues[i] == types[dataKeys[i]]
      invariant forall i :: 0 <= i < n && dataKeys[i] !in types ==> typeValues[i] == ParamStr
    {
      var k := dataKeys[n];
      typeValues := typeValues + [if k in types then types[k] else ParamStr];
    }
  }

  class Connection {
    var autoCommit: bool
    var level: int
    var nestWithSavepoints: bool
    var rollbackOnly: bool
    var connected: bool
    /** The driver calls made so far, in order. */
    var calls: seq<DriverCall>
    const supportsSavepoints: bool
    const supportsReleaseSavepoints: bool

    /** The nesting level is never negative, a transaction is only open on
        an open connection, and savepoint nesting is only switched on when
        the platform has savepoints. `close` (not modelled) drops the
        connection without touching the nesting level, so the state it
        leaves inside a transaction is outside this invariant. */
    ghost predicate Valid()
      reads this
    {
      level >= 0 && (level != 0 ==> connected) && (nestWithSavepoints ==> supportsSavepoints)
    }

    /** A new connection is in auto-commit mode with no transaction; it is
        already open when a PDO handle was passed in. */
    constructor(pdoGiven: bool, savepoints: bool, releaseSavepoints: bool)
      ensures Valid()
      ensures autoCommit && level == 0 && !nestWithSavepoints && !rollbackOnly
      ensures connected == pdoGiven && calls == []
      ensures supportsSavepoints == savepoints && supportsReleaseSavepoints == releaseSavepoints
    {
      autoCommit := true;
      level := 0;
      nestWithSavepoints := false;
      rollbackOnly := false;
      connected := pdoGiven;
      calls := [];
      supportsSavepoints := savepoints;
      supportsReleaseSavepoints := releaseSavepoints;
    }

    /** The driver calls that opening the connection makes (none when it
        is open). */
    ghost function Opening(): seq<DriverCall>
      reads this
    {
      if connected then [] else [DriverOpen] + (if autoCommit then [] else [DriverBegin])
    }

    /** The nesting level once the connection is open: opening it outside
        auto-commit mode begins a transaction. */
    ghost function LevelOnceOpen(): int
      reads this
    {
      level + (if !connected && !autoCommit then 1 else 0)
    }

    /** `isTransactionActive` */
    function IsTransactionActive(): (r: bool)
      reads this
      ensures r <==> level > 0
    {
      level > 0
    }

    /** `connect`: opening a connection outside auto-commit mode begins a
        transaction straight away. */
    method Connect() returns (didOpen: bool)
      requires Valid()
      modifies this
      decreases if connected then 0 else 1, 0
      ensures Valid() && connected
      ensures didOpen == !old(connected)
      ensures old(connected) ==> unchanged(this)
      ensures !old(connected) ==>
        level == old(level) + (if autoCommit then 0 else 1) &&
        calls == old(calls) + [DriverOpen] + (if autoCommit then [] else [DriverBegin])
      ensures autoCommit == old(autoCommit) && nestWithSavepoints == old(nestWithSavepoints)
      ensures rollbackOnly == old(rollbackOnly)
    {
      if connected {
        return false;
      }
      calls := calls + [DriverOpen];
      connected := true;
      if !autoCommit {
        BeginTransaction();
      }
      return true;
    }

    /** `beginTransaction`: one more nesting level (two when it had to open
        the connection outside auto-commit mode, whose opening already
        began one). */
    method BeginTransaction()
      requires Valid()
      modifies this
      decreases if connected then 0 else 1, 1
      ensures Valid() && connected
      ensures old(connected) || autoCommit ==> level == old(level) + 1
      ensures !old(connected) && !autoCommit ==> level == old(level) + 2
      ensures calls == old(calls) + (if old(connected) then [] else [DriverOpen] + (if autoCommit then [] else [DriverBegin])) + [DriverBegin]
      ensures autoCommit == old(autoCommit) && nestWithSavepoints == old(nestWithSavepoints)
      ensures rollbackOnly == old(rollbackOnly)
    {
      var _ := Connect();
      level := level + 1;
      calls := calls + [DriverBegin];
    }

    /** `releaseSavepoint`: asked of the platform only when it can release
        savepoints (the missing-savepoints exception is built, not thrown). */
    method ReleaseSavepointNamed(name: string)
      modifies this
      ensures calls == old(calls) + (if supportsReleaseSavepoints then [ReleaseSavepoint(name)] else [])
      ensures level == old(level) && autoCommit == old(autoCommit) && connected == old(connected)
      ensures nestWithSavepoints == old(nestWithSavepoints) && rollbackOnly == old(rollbackOnly)
    {
      if supportsReleaseSavepoints {
        calls := calls + [ReleaseSavepoint(name)];
      }
    }

    /** `rollbackSavepoint` (the missing-savepoints exception is built, not
        thrown). */
    method RollbackSavepointNamed(name: string)
      modifies this
      ensures calls == old(calls) + [RollbackSavepoint(name)]
      ensures level == old(level) && autoCommit == old(autoCommit) && connected == old(connected)
      ensures nestWithSavepoints == old(nestWithSavepoints) && rollbackOnly == old(rollbackOnly)
    {
      calls := calls + [RollbackSavepoint(name)];
    }

    /** `commit`: refuses outside a transaction and in a rollback-only one,
        leaving everything as it was; commits the driver at the outermost
        level, releases the level's savepoint when nesting with savepoints,
        and outside auto-commit mode begins the next transaction at once. */
    method Commit() returns (err: Option<Error>)
      requires Valid()
      modifies this
      ensures Valid()
      ensures old(level) == 0 ==> err == Some(NoActiveTransaction) && unchanged(this)
      ensures old(level) != 0 && old(rollbackOnly) ==> err == Some(CommitFailedRollbackOnly) && unchanged(this)
      ensures old(level) != 0 && !old(rollbackOnly) ==>
        err == None &&
        level == (if old(level) == 1 && !autoCommit then 1 else old(level) - 1) &&
        calls == old(calls) +
          (if old(level) == 1 then [DriverCommit] + (if autoCommit then [] else [DriverBegin])
           else if nestWithSavepoints && supportsReleaseSavepoints then [ReleaseSavepoint(SavepointName(old(level)))]
           else [])
      ensures autoCommit == old(autoCommit) && nestWithSavepoints == old(nestWithSavepoints)
      ensures rollbackOnly == old(rollbackOnly) && connected == old(connected)
    {
      if level == 0 {
        return Some(NoActiveTransaction);
      }
      if rollbackOnly {
        return Some(CommitFailedRollbackOnly);
      }
      var _ := Connect();
      if level == 1 {
        calls := calls + [DriverCommit];
      } else if nestWithSavepoints {
        ReleaseSavepointNamed(SavepointName(level));
      }
      level := level - 1;
      if !autoCommit && level == 0 {
        BeginTransaction();
      }
      return None;
    }

    /** `commitAll`: commits level after level down to the outermost; the
        loop ends because every pass lowers the level. A rollback-only
        transaction stops it at the first commit with nothing changed. */
    method CommitAll() returns (err: Option<Error>)
      requires Valid()
      modifies this
      ensures Valid()
      ensures old(level) == 0 ==> err == None && unchanged(this)
      ensures old(level) != 0 && old(rollbackOnly) ==> err == Some(CommitFailedRollbackOnly) && unchanged(this)
      ensures old(level) != 0 && !old(rollbackOnly) ==>
        err == None &&
        level == (if autoCommit then 0 else 1) &&
        calls == old(calls) + Releases(old(level), 1, nestWithSavepoints && supportsReleaseSavepoints)
          + [DriverCommit] + (if autoCommit then [] else [DriverBegin])
      ensures autoCommit == old(autoCommit) && nestWithSavepoints == old(nestWithSavepoints)
      ensures rollbackOnly == old(rollbackOnly) && connected == old(connected)
    {
      ghost var release := nestWithSavepoints && supportsReleaseSavepoints;
      err := None;
      while level != 0
        invariant Valid() && err == None
        invariant autoCommit == old(autoCommit) && nestWithSavepoints == old(nestWithSavepoints)
        invariant rollbackOnly == old(rollbackOnly) && connected == old(connected)
        invariant old(rollbackOnly) && old(level) != 0 ==> unchanged(this)
        invariant level <= old(level)
        invariant level != 0 ==> calls == old(calls) + Releases(old(level), level, release)
        invariant level == 0 && old(level) != 0 ==> autoCommit && calls == old(calls) + Releases(old(level), 1, release) + [DriverCommit]
        invariant level == 0 ==> old(level) == 0 || !old(rollbackOnly)
        invariant old(level) == 0 ==> unchanged(this)
        decreases level
      {
        if !autoCommit && level == 1 {
          err := Commit();
          return;
        }
        ghost var before := level;
        err := Commit();
        if err.Some? {
          return;
        }
        if before > 1 {
          ReleasesStep(old(level), before, release);
        } else {
          assert Releases(old(level), 1, release) == Releases(old(level), before, release);
        }
      }
    }

    /** `setAutoCommit`: nothing happens when the mode is unchanged; a
        switch while a transaction is open on a live connection commits
        every level. */
    method SetAutoCommit(mode: bool) returns (err: Option<Error>)
      requires Valid()
      modifies this
      ensures Valid() && autoCommit == mode
      ensures mode == old(autoCommit) ==> err == None && unchanged(this)
      ensures mode != old(autoCommit) && (!old(connected) || old(level) == 0) ==>
        err == None && level == old(level) && calls == old(calls)
      ensures mode != old(autoCommit) && old(connected) && old(level) != 0 && !old(rollbackOnly) ==>
        err == None && level == (if mode then 0 else 1) &&
        calls == old(calls) + Releases(old(level), 1, nestWithSavepoints && supportsReleaseSavepoints)
          + [DriverCommit] + (if mode then [] else [DriverBegin])
      ensures mode != old(autoCommit) && old(connected) && old(level) != 0 && old(rollbackOnly) ==>
        err == Some(CommitFailedRollbackOnly) && level == old(level) && calls == old(calls)
      ensures nestWithSavepoints == old(nestWithSavepoints) && rollbackOnly == old(rollbackOnly)
    {
      err := None;
      if mode == autoCommit {
        return;
      }
      autoCommit := mode;
      if connected && level != 0 {
        err := CommitAll();
      }
    }

    /** `setNestTransactionsWithSavepoints`: refused inside a transaction
        and on a platform without savepoints. */
    method SetNestTransactionsWithSavepoints(nest: bool) returns (err: Option<Error>)
      requires Valid()
      modifies this
      ensures Valid()
      ensures old(level) > 0 ==> err == Some(MayNotAlterNestedTransactionWithSavepointsInTransaction) && unchanged(this)
      ensures old(level) == 0 && !supportsSavepoints ==> err == Some(SavepointsNotSupported) && unchanged(this)
      ensures old(level) == 0 && supportsSavepoints ==> err == None && nestWithSavepoints == nest
      ensures level == old(level) && calls == old(calls) && autoCommit == old(autoCommit)
      ensures rollbackOnly == old(rollbackOnly) && connected == old(connected)
    {
      if level > 0 {
        return Some(MayNotAlterNestedTransactionWithSavepointsInTransaction);
      }
      if !supportsSavepoints {
        return Some(SavepointsNotSupported);
      }
      nestWithSavepoints := nest;
      return None;
    }

    /** `rollBack` as written: outside a transaction the exception is built
        but not thrown, so the code goes on and lowers the level to -1. */
    method RollBackAsWritten()
      requires Valid()
      modifies this
      ensures old(LevelOnceOpen()) != 0 ==> Valid()
      ensures connected
      ensures old(LevelOnceOpen()) == 1 ==>
        !rollbackOnly &&
        level == (if autoCommit then 0 else 1) &&
        calls == old(calls) + old(Opening()) + [DriverRollback] + (if autoCommit then [] else [DriverBegin])
      ensures old(LevelOnceOpen()) != 1 && nestWithSavepoints ==>
        level == old(LevelOnceOpen()) - 1 && rollbackOnly == old(rollbackOnly) &&
        calls == old(calls) + old(Opening()) + [RollbackSavepoint(SavepointName(old(LevelOnceOpen())))]
      ensures old(LevelOnceOpen()) != 1 && !nestWithSavepoints ==>
        level == old(LevelOnceOpen()) - 1 && rollbackOnly &&
        calls == old(calls) + old(Opening())
      ensures old(level) == 0 && (old(connected) || autoCommit) ==> level == -1
      ensures autoCommit == old(autoCommit) && nestWithSavepoints == old(nestWithSavepoints)
    {
      var _ := Connect();
      if level == 1 {
        level := 0;
        calls := calls + [DriverRollback];
        rollbackOnly := false;
        if !autoCommit {
          BeginTransaction();
        }
      } else if nestWithSavepoints {
        RollbackSavepointNamed(SavepointName(level));
        level := level - 1;
      } else {
        rollbackOnly := true;
        level := level - 1;
      }
    }

    /** `rollBack`: refuses outside a transaction; at the outermost level
        rolls the driver back, clears rollback-only and, outside auto-commit
        mode, begins the next transaction; a nested level rolls back to its
        savepoint, or without savepoints marks the whole transaction
        rollback-only. */
    method RollBack() returns (err: Option<Error>)
      requires Valid()
      modifies this
      ensures Valid()
      ensures old(level) == 0 ==> err == Some(NoActiveTransaction) && unchanged(this)
      ensures old(level) == 1 ==>
        err == None && !rollbackOnly &&
        level == (if autoCommit then 0 else 1) &&
        calls == old(calls) + [DriverRollback] + (if autoCommit then [] else [DriverBegin])
      ensures old(level) > 1 && nestWithSavepoints ==>
        err == None && level == old(level) - 1 && rollbackOnly == old(rollbackOnly) &&
        calls == old(calls) + [RollbackSavepoint(SavepointName(old(level)))]
      ensures old(level) > 1 && !nestWithSavepoints ==>
        err == None && level == old(level) - 1 && rollbackOnly && calls == old(calls)
      ensures autoCommit == old(autoCommit) && nestWithSavepoints == old(nestWithSavepoints)
      ensures connected == old(connected)
    {
      if level == 0 {
        return Some(NoActiveTransaction);
      }
      RollBackAsWritten();
      return None;
    }

    /** `setRollbackOnly` as written: the no-transaction exception is built
        but not thrown, so the flag is set even outside a transaction. */
    method SetRollbackOnlyAsWritten()
      requires Valid()
      modifies this
      ensures Valid() && rollbackOnly
      ensures level == old(level) && calls == old(calls) && autoCommit == old(autoCommit)
      ensures nestWithSavepoints == old(nestWithSavepoints) && connected == old(connected)
    {
      rollbackOnly := true;
    }

    /** `setRollbackOnly`: refused outside a transaction; otherwise marks
        the transaction so that it can only be rolled back. */
    method SetRollbackOnly() returns (err: Option<Error>)
      requires Valid()
      modifies this
      ensures Valid()
      ensures old(level) == 0 ==> err == Some(NoActiveTransaction) && unchanged(this)
      ensures old(level) != 0 ==> err == None && rollbackOnly
      ensures level == old(level) && calls == old(calls) && autoCommit == old(autoCommit)
      ensures nestWithSavepoints == old(nestWithSavepoints) && connected == old(connected)
    {
      if level == 0 {
        return Some(NoActiveTransaction);
      }
      SetRollbackOnlyAsWritten();
      return None;
    }

    /** `isRollbackOnly` as written: the no-transaction exception is built
        but not thrown, so outside a transaction the flag is answered all
        the same. */
    function IsRollbackOnlyAsWritten(): (r: bool)
      reads this
      ensures r <==> rollbackOnly
    {
      rollbackOnly
    }

    /** `isRollbackOnly`: refused outside a transaction, as its
        documentation promises; inside one the flag, as written. */
    function IsRollbackOnly(): (r: Result<bool, Error>)
      reads this
      ensures level == 0 <==> r == Err(NoActiveTransaction)
      ensures level != 0 ==> r == Ok(rollbackOnly)
    {
      if level == 0 then Err(NoActiveTransaction) else Ok(rollbackOnly)
    }
  }

  /** Rolling back with no transaction open leaves the nesting level at -1:
      the connection then reports no active transaction, yet a following
      commit passes its level-is-zero guard. */
  method RollBackOutsideTransaction() returns (level: int, active: bool)
    ensures level == -1 && !active
  {
    var c := new Connection(true, false, false);
    c.RollBackAsWritten();
    level := c.level;
    active := c.IsTransactionActive();
  }

  /** Marking rollback-only with no transaction open makes the next
      transaction's commit fail although nothing was marked inside it. */
  method RollbackOnlyOutsideTransaction() returns (err: Option<Error>)
    ensures err == Some(CommitFailedRollbackOnly)
  {
    var c := new Connection(true, false, false);
    c.SetRollbackOnlyAsWritten();
    c.BeginTransaction();
    err := c.Commit();
  }

  /** Outside a transaction, a flag left over from an earlier transaction
      is answered as written, where the documented check refuses. */
  method RollbackOnlyReadOutsideTransaction() returns (answered: bool, checked: Result<bool, Error>)
    ensures answered && checked == Err(NoActiveTransaction)
  {
    var c := new Connection(true, false, false);
    c.SetRollbackOnlyAsWritten();
    answered := c.IsRollbackOnlyAsWritten();
    checked := c.IsRollbackOnly();
  }

  /** With the checks in place the same sequence commits cleanly. */
  method RollbackOnlyRefusedOutsideTransaction() returns (marked: Option<Error>, err: Option<Error>)
    ensures marked == Some(NoActiveTransaction) && err == None
  {
    var c := new Connection(true, false, false);
    marked := c.SetRollbackOnly();
    c.BeginTransaction();
    err := c.Commit();
  }
}
