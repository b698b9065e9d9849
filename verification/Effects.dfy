/**
 What the configuration commands are for, stated over the positions of any command sequence: which rows
 and keys are there, what they hold, what the flag is, and what each command leaves alone.
 */
module Effects {
  import opened Wrappers
  import opened Text
  import opened Cli

  // ---------- one command ----------

  predicate GoodName(env: Env, name: string) {
    |name| <= 57 && ValidName(env, name)
  }

  const NUMERIC := "0123456789!\"#$%&'()*+,-./:;<=>?@[\\]^_`{|}~"

  lemma NumericCharacter(c: char)
    ensures c in NUMERIC <==> IsPunct(c) || IsDigit(c)
  {
  }

  lemma AddressCharacter(c: char)
    ensures c in "0123456789." <==> IsDigit(c) || c == '.'
  {
  }

  /**
   A name is good if some character is neither digit nor punctuation; a name of nothing else has to be a
   numeric address that does not begin with `0`.
   */
  lemma NamesExactly(env: Env, name: string)
    ensures ValidName(env, name) <==>
      || (exists i :: 0 <= i < |name| && name[i] !in NUMERIC)
      || (&& name != "" && name[0] != '0' && env.acceptsIpv4(name)
          && forall i :: 0 <= i < |name| ==> name[i] in "0123456789.")
  {
    forall i | 0 <= i < |name|
      ensures name[i] in NUMERIC <==> IsPunct(name[i]) || IsDigit(name[i])
      ensures name[i] in "0123456789." <==> IsDigit(name[i]) || name[i] == '.'
    {
      NumericCharacter(name[i]);
      AddressCharacter(name[i]);
    }
  }

  predicate GoodId(key: string) {
    1 <= Atoi(key) <= 65534
  }

  /** The command passes its checks in this state. */
  predicate Accepted(env: Env, db: Db, c: Command) {
    match c
    case Server(name, _, version, keyId) =>
      && GoodName(env, name)
      && (keyId.Some? ==> GoodId(keyId.value) && Atoi(keyId.value) in db.keys)
      && (version.Some? ==> 3 <= Atoi(version.value) <= 4)
    case NoServer(name) => GoodName(env, name)
    case AuthKey(key, password) => GoodId(key) && 8 <= |password| <= 16
    case NoAuthKey(key) => GoodId(key)
    case TrustedKey(key, _) => GoodId(key) && Atoi(key) in db.keys
    case AuthEnable(_) => env.hasSystem
  }

  /** Some association refers to the key, and that keeps the key from being deleted. */
  predicate Held(env: Env, db: Db, id: int) {
    env.refs == Strong && exists n :: n in db.assocs && db.assocs[n].key == Some(id)
  }

  /** The return code of every command: a missing key is told apart from an argument out of range. */
  lemma OutcomeExactly(env: Env, db: Db, c: Command)
    ensures Apply(env, db, c).1 ==
      if Accepted(env, db, c) then
        if c.NoAuthKey? && Atoi(c.key) in db.keys && Held(env, db, Atoi(c.key)) then Warning else Success
      else if c.AuthEnable? then Warning
      else if c.TrustedKey? && GoodId(c.key) then DbFailure
      else if c.Server? && GoodName(env, c.name) && c.keyId.Some? && GoodId(c.keyId.value) && Atoi(c.keyId.value) !in db.keys then DbFailure
      else NothingToDo
  {
    if c.NoAuthKey? {
      assert Held(env, db, Atoi(c.key)) <==> env.refs == Strong && Referenced(db, Atoi(c.key)) by {
        HeldMeans(env, db, Atoi(c.key));
      }
    }
  }

  lemma HeldMeans(env: Env, db: Db, id: int)
    ensures Held(env, db, id) <==> env.refs == Strong && Referenced(db, id)
  {
    if Held(env, db, id) {
      var n :| n in db.assocs && db.assocs[n].key == Some(id);
      assert Refers(db.assocs[n], id);
    }
  }

  /** A command that fails changes nothing. */
  lemma FailureChangesNothing(env: Env, db: Db, c: Command)
    requires Apply(env, db, c).1 != Success
    ensures Apply(env, db, c).0 == db
  {
  }

  /** The command stores the association: it passes its checks, and the row or room for it is there. */
  predicate Stores(env: Env, db: Db, c: Command, name: string) {
    c.Server? && c.name == name && Accepted(env, db, c) && (name in db.assocs || |db.assocs| < 8)
  }

  predicate Removes(env: Env, db: Db, c: Command, name: string) {
    c.NoServer? && c.name == name && Accepted(env, db, c)
  }

  /** The command gives the key a password, inserting it if need be. */
  predicate SetsPassword(env: Env, db: Db, c: Command, id: int) {
    c.AuthKey? && Atoi(c.key) == id && Accepted(env, db, c)
  }

  /** The command deletes the key: nothing holds it. */
  predicate Deletes(env: Env, db: Db, c: Command, id: int) {
    c.NoAuthKey? && Atoi(c.key) == id && Accepted(env, db, c) && !Held(env, db, id)
  }

  predicate MarksTrust(env: Env, db: Db, c: Command, id: int) {
    c.TrustedKey? && Atoi(c.key) == id && Accepted(env, db, c)
  }

  /** Key and flag commands neither add nor remove associations. */
  lemma AddressesStay(env: Env, db: Db, c: Command)
    requires !c.Server? && !c.NoServer?
    ensures Apply(env, db, c).0.assocs.Keys == db.assocs.Keys
  {
  }

  lemma RemovalStep(env: Env, db: Db, removed: string, name: string)
    ensures name in Apply(env, db, NoServer(removed)).0.assocs <==>
      name in db.assocs && !Removes(env, db, NoServer(removed), name)
  {
  }

  lemma StoringStep(env: Env, db: Db, c: Command, name: string)
    requires c.Server?
    ensures name in Apply(env, db, c).0.assocs <==> Stores(env, db, c, name) || name in db.assocs
  {
    if c.name == name {
      ServerStoredExactly(env, db, c.name, c.prefer, c.version, c.keyId);
    }
  }

  lemma AssocStep(env: Env, db: Db, c: Command, name: string)
    ensures name in Apply(env, db, c).0.assocs <==> Stores(env, db, c, name) || (name in db.assocs && !Removes(env, db, c, name))
  {
    match c
    case Server(_, _, _, _) => StoringStep(env, db, c, name);
    case NoServer(removed) => RemovalStep(env, db, removed, name);
    case _ => AddressesStay(env, db, c);
  }

  lemma KeyPresenceStep(env: Env, db: Db, c: Command, id: int)
    ensures id in Apply(env, db, c).0.keys <==>
      SetsPassword(env, db, c, id) || (id in db.keys && !Deletes(env, db, c, id))
  {
    if c.NoAuthKey? {
      HeldMeans(env, db, id);
    }
  }

  predicate HasPassword(db: Db, id: int, password: string) {
    id in db.keys && db.keys[id].password == password
  }

  predicate Trusts(db: Db, id: int) {
    id in db.keys && db.keys[id].trusted
  }

  lemma PasswordStep(env: Env, db: Db, c: Command, id: int, password: string)
    ensures HasPassword(Apply(env, db, c).0, id, password) <==>
      || (SetsPassword(env, db, c, id) && c.password == password)
      || (HasPassword(db, id, password) && !SetsPassword(env, db, c, id) && !Deletes(env, db, c, id))
  {
    if c.NoAuthKey? {
      HeldMeans(env, db, id);
    }
  }

  lemma TrustStep(env: Env, db: Db, c: Command, id: int)
    ensures Trusts(Apply(env, db, c).0, id) <==>
      || (MarksTrust(env, db, c, id) && c.trust)
      || (Trusts(db, id) && !MarksTrust(env, db, c, id) && !Deletes(env, db, c, id))
  {
    if c.NoAuthKey? {
      HeldMeans(env, db, id);
    }
  }

  lemma FlagStep(env: Env, db: Db, c: Command)
    requires env.hasSystem || !db.auth
    ensures Apply(env, db, c).0.auth <==> (env.hasSystem && c == AuthEnable(true)) || (db.auth && !c.AuthEnable?)
  {
  }

  /** The other rows, keys and the flag stay. */
  predicate SameAt<K, V(==)>(before: map<K, V>, after: map<K, V>, k: K) {
    (k in before <==> k in after) && (k in before ==> after[k] == before[k])
  }

  /** Both forms of `ntp server` touch one row. */
  lemma ServerFrame(env: Env, db: Db, c: Command, name: string)
    requires (c.Server? || c.NoServer?) && name != c.name
    ensures var db' := Apply(env, db, c).0;
      db'.keys == db.keys && db'.auth == db.auth && SameAt(db.assocs, db'.assocs, name)
  {
  }

  /** A password or a mark touches one key. */
  lemma KeyFrame(env: Env, db: Db, c: Command, id: int)
    requires (c.AuthKey? || c.TrustedKey?) && id != Atoi(c.key)
    ensures var db' := Apply(env, db, c).0;
      db'.assocs == db.assocs && db'.auth == db.auth && SameAt(db.keys, db'.keys, id)
  {
  }

  /** A deletion touches one key and, of the rows that refer to it, only the reference. */
  lemma DeletionFrame(env: Env, db: Db, key: string, id: int, name: string)
    requires id != Atoi(key) && name in db.assocs
    ensures var db' := Apply(env, db, NoAuthKey(key)).0;
      && db'.auth == db.auth && SameAt(db.keys, db'.keys, id) && db'.assocs.Keys == db.assocs.Keys
      && db'.assocs[name] ==
           if Atoi(key) in db.keys && Deletes(env, db, NoAuthKey(key), Atoi(key)) && db.assocs[name].key == Some(Atoi(key))
           then db.assocs[name].(key := None) else db.assocs[name]
  {
    HeldMeans(env, db, Atoi(key));
  }

  lemma FlagFrame(env: Env, db: Db, enable: bool)
    ensures var db' := Apply(env, db, AuthEnable(enable)).0;
      db'.keys == db.keys && db'.assocs == db.assocs && db'.auth == if env.hasSystem then enable else db.auth
  {
  }

  // ---------- any sequence of commands ----------

  predicate StoresAt(env: Env, cs: seq<Command>, i: nat, name: string)
    requires i < |cs|
  {
    Stores(env, Before(env, cs, i), cs[i], name)
  }

  predicate RemovesAt(env: Env, cs: seq<Command>, i: nat, name: string)
    requires i < |cs|
  {
    Removes(env, Before(env, cs, i), cs[i], name)
  }

  predicate SetsPasswordAt(env: Env, cs: seq<Command>, i: nat, id: int)
    requires i < |cs|
  {
    SetsPassword(env, Before(env, cs, i), cs[i], id)
  }

  predicate DeletesAt(env: Env, cs: seq<Command>, i: nat, id: int)
    requires i < |cs|
  {
    Deletes(env, Before(env, cs, i), cs[i], id)
  }

  predicate MarksTrustAt(env: Env, cs: seq<Command>, i: nat, id: int)
    requires i < |cs|
  {
    MarksTrust(env, Before(env, cs, i), cs[i], id)
  }

  lemma AssocStepAt(env: Env, cs: seq<Command>, i: nat, name: string)
    requires i < |cs|
    ensures name in Before(env, cs, i + 1).assocs <==>
      StoresAt(env, cs, i, name) || (name in Before(env, cs, i).assocs && !RemovesAt(env, cs, i, name))
  {
    BeforeNext(env, cs, i);
    AssocStep(env, Before(env, cs, i), cs[i], name);
  }

  lemma {:induction false} AssocBefore(env: Env, cs: seq<Command>, n: nat, name: string)
    requires n <= |cs|
    ensures name in Before(env, cs, n).assocs <==>
      exists i :: 0 <= i < n && StoresAt(env, cs, i, name) && forall j :: i < j < n ==> !RemovesAt(env, cs, j, name)
  {
    if n > 0 {
      AssocBefore(env, cs, n - 1, name);
      AssocStepAt(env, cs, n - 1, name);
    }
  }

  /** An address is in the table exactly when its last `ntp server` that was stored comes after its last removal. */
  lemma AssocIsThere(env: Env, cs: seq<Command>, name: string)
    ensures name in Run(env, EMPTY, cs).assocs <==>
      exists i :: 0 <= i < |cs| && StoresAt(env, cs, i, name) && forall j :: i < j < |cs| ==> !RemovesAt(env, cs, j, name)
  {
    AssocBefore(env, cs, |cs|, name);
    assert cs[..|cs|] == cs;
  }

  lemma KeyPresenceStepAt(env: Env, cs: seq<Command>, i: nat, id: int)
    requires i < |cs|
    ensures id in Before(env, cs, i + 1).keys <==>
      || (SetsPasswordAt(env, cs, i, id))
      || (id in Before(env, cs, i).keys && !DeletesAt(env, cs, i, id))
  {
    BeforeNext(env, cs, i);
    KeyPresenceStep(env, Before(env, cs, i), cs[i], id);
  }

  lemma {:induction false} KeyPresenceBefore(env: Env, cs: seq<Command>, n: nat, id: int)
    requires n <= |cs|
    ensures id in Before(env, cs, n).keys <==>
      exists i :: 0 <= i < n && SetsPasswordAt(env, cs, i, id)
        && forall j :: i < j < n ==> !DeletesAt(env, cs, j, id)
  {
    if n > 0 {
      KeyPresenceBefore(env, cs, n - 1, id);
      KeyPresenceStepAt(env, cs, n - 1, id);
    }
  }

  /** A key is there exactly when a password was given to it after its last deletion. */
  lemma KeyIsThere(env: Env, cs: seq<Command>, id: int)
    ensures id in Run(env, EMPTY, cs).keys <==>
      exists i :: 0 <= i < |cs| && SetsPasswordAt(env, cs, i, id)
        && forall j :: i < j < |cs| ==> !DeletesAt(env, cs, j, id)
  {
    KeyPresenceBefore(env, cs, |cs|, id);
    assert cs[..|cs|] == cs;
  }

  lemma PasswordStepAt(env: Env, cs: seq<Command>, i: nat, id: int, password: string)
    requires i < |cs|
    ensures HasPassword(Before(env, cs, i + 1), id, password) <==>
      || (SetsPasswordAt(env, cs, i, id) && cs[i].password == password)
      || (HasPassword(Before(env, cs, i), id, password) && !SetsPasswordAt(env, cs, i, id) && !DeletesAt(env, cs, i, id))
  {
    BeforeNext(env, cs, i);
    PasswordStep(env, Before(env, cs, i), cs[i], id, password);
  }

  lemma {:induction false} PasswordBefore(env: Env, cs: seq<Command>, n: nat, id: int, password: string)
    requires n <= |cs|
    ensures HasPassword(Before(env, cs, n), id, password) <==>
      exists i :: 0 <= i < n && SetsPasswordAt(env, cs, i, id) && cs[i].password == password
        && forall j :: i < j < n ==> !SetsPasswordAt(env, cs, j, id) && !DeletesAt(env, cs, j, id)
  {
    if n > 0 {
      PasswordBefore(env, cs, n - 1, id, password);
      PasswordStepAt(env, cs, n - 1, id, password);
    }
  }

  /** The key's password is the last one given since the last deletion. */
  lemma PasswordIsLast(env: Env, cs: seq<Command>, id: int, password: string)
    ensures HasPassword(Run(env, EMPTY, cs), id, password) <==>
      exists i :: 0 <= i < |cs| && SetsPasswordAt(env, cs, i, id) && cs[i].password == password
        && forall j :: i < j < |cs| ==> !SetsPasswordAt(env, cs, j, id) && !DeletesAt(env, cs, j, id)
  {
    PasswordBefore(env, cs, |cs|, id, password);
    assert cs[..|cs|] == cs;
  }

  lemma TrustStepAt(env: Env, cs: seq<Command>, i: nat, id: int)
    requires i < |cs|
    ensures Trusts(Before(env, cs, i + 1), id) <==>
      || (MarksTrustAt(env, cs, i, id) && cs[i].trust)
      || (Trusts(Before(env, cs, i), id) && !MarksTrustAt(env, cs, i, id) && !DeletesAt(env, cs, i, id))
  {
    BeforeNext(env, cs, i);
    TrustStep(env, Before(env, cs, i), cs[i], id);
  }

  lemma {:induction false} TrustBefore(env: Env, cs: seq<Command>, n: nat, id: int)
    requires n <= |cs|
    ensures Trusts(Before(env, cs, n), id) <==>
      exists i :: 0 <= i < n && MarksTrustAt(env, cs, i, id) && cs[i].trust
        && forall j :: i < j < n ==> !MarksTrustAt(env, cs, j, id) && !DeletesAt(env, cs, j, id)
  {
    if n > 0 {
      TrustBefore(env, cs, n - 1, id);
      TrustStepAt(env, cs, n - 1, id);
    }
  }

  /** The key is trusted exactly when the last mark since its last deletion was the positive one. */
  lemma TrustIsLast(env: Env, cs: seq<Command>, id: int)
    ensures Trusts(Run(env, EMPTY, cs), id) <==>
      exists i :: 0 <= i < |cs| && MarksTrustAt(env, cs, i, id) && cs[i].trust
        && forall j :: i < j < |cs| ==> !MarksTrustAt(env, cs, j, id) && !DeletesAt(env, cs, j, id)
  {
    TrustBefore(env, cs, |cs|, id);
    assert cs[..|cs|] == cs;
  }

  lemma {:induction false} FlagBefore(env: Env, cs: seq<Command>, n: nat)
    requires n <= |cs|
    ensures Before(env, cs, n).auth <==>
      && env.hasSystem
      && exists i :: 0 <= i < n && cs[i] == AuthEnable(true) && forall j :: i < j < n ==> !cs[j].AuthEnable?
  {
    if n > 0 {
      FlagBefore(env, cs, n - 1);
      BeforeNext(env, cs, n - 1);
      FlagStep(env, Before(env, cs, n - 1), cs[n - 1]);
    }
  }

  /** With a System row the flag is what the last `ntp authentication enable` form said, without one it stays off. */
  lemma FlagIsLast(env: Env, cs: seq<Command>)
    ensures Run(env, EMPTY, cs).auth <==>
      && env.hasSystem
      && exists i :: 0 <= i < |cs| && cs[i] == AuthEnable(true) && forall j :: i < j < |cs| ==> !cs[j].AuthEnable?
  {
    FlagBefore(env, cs, |cs|);
    assert cs[..|cs|] == cs;
  }
}
