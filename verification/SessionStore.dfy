/**
  One session's references in memory and in the reference store, over one report: what binding,
  saving, resetting and crashing do to the two together (`bind_session`, `save`, `restore`).
*/
module SessionStore {
  import opened Wrappers
  import opened ReferenceState
  import R = ReportTaskRefs

  /** The row of the reference store, with the registry it was dumped from. */
  datatype Saved = Saved(dump: Dump, from: R.Registry)

  datatype Store = Store(sys: R.System, saved: Option<Saved>) {
    function Reg(): R.Registry {
      sys.reg
    }
  }

  function EmptySystem(nonce: string): R.System {
    R.System(R.EmptyRegistry(nonce), map[], map[])
  }

  function MintedOf(reg: R.Registry): map<string, R.TokenIdentity> {
    map t | t in reg.records :: R.IdentityOf(reg.records[t])
  }

  /** `bind_session` without a new generation: bind the scope, then restore what was saved. */
  function Bound(st: Store, sessionId: string, binding: R.Binding): Store
    requires sessionId != ""
  {
    var reg := R.Bind(st.sys.reg, sessionId, binding, false).value;
    if st.saved.None? then st.(sys := st.sys.(reg := reg))
    else
      var loaded := Load(reg, sessionId, st.saved.value.dump);
      if loaded.Err? then st
      else
        var minted := if sessionId in st.sys.reg.scopes then st.sys.minted else MintedOf(loaded.value);
        st.(sys := st.sys.(reg := loaded.value, minted := minted))
  }

  function Used(st: Store, step: R.Step): Store {
    if step.BindSession? then st else st.(sys := R.Next(st.sys, step))
  }

  function SavedAs(st: Store, dump: Dump): Store {
    st.(saved := Some(Saved(dump, st.sys.reg)))
  }

  /** `bind_session` with a new generation, before it saves. */
  function Reset(st: Store, sessionId: string, binding: R.Binding): Store
    requires sessionId != ""
  {
    st.(sys := st.sys.(reg := R.Bind(st.sys.reg, sessionId, binding, true).value))
  }

  function Crashed(st: Store, nonce: string): Store {
    st.(sys := EmptySystem(nonce))
  }

  // ---- the invariant ----

  ghost predicate MemoryOk(sys: R.System, sessionId: string, binding: R.Binding) {
    && R.Inv(sys)
    && sys.reg.scopes.Keys <= {sessionId}
    && (sessionId in sys.reg.scopes ==> sys.reg.scopes[sessionId].binding == binding)
    && (sessionId !in sys.reg.scopes ==> sys == EmptySystem(sys.reg.nonce))
  }

  ghost predicate SavedOk(saved: Saved, sessionId: string, binding: R.Binding) {
    && R.Valid(saved.from) && R.OneTokenPerObject(saved.from)
    && R.Spent(saved.from.counter, R.UsedTokens(saved.from, MintedOf(saved.from)))
    && saved.from.scopes.Keys == {sessionId} && saved.from.scopes[sessionId].binding == binding
    && IsDump(saved.from, sessionId, saved.dump)
  }

  ghost predicate StoreOk(st: Store, sessionId: string, binding: R.Binding) {
    && MemoryOk(st.sys, sessionId, binding)
    && (st.saved.Some? ==>
          && SavedOk(st.saved.value, sessionId, binding)
          && (sessionId in st.sys.reg.scopes ==>
                && R.Grows(st.saved.value.from, st.sys.reg)
                && st.sys.reg.scopes[sessionId] == st.saved.value.from.scopes[sessionId]))
  }

  lemma MintedSpent(sys: R.System)
    requires R.Inv(sys)
    ensures R.Spent(sys.reg.counter, R.UsedTokens(sys.reg, MintedOf(sys.reg)))
  {
    forall t | t in sys.reg.records ensures t in sys.minted {
      assert R.Minted(sys.minted, sys.reg.records[t]);
    }
    assert R.UsedTokens(sys.reg, MintedOf(sys.reg)) <= R.UsedTokens(sys.reg, sys.minted);
  }

  lemma UseKeepsOk(st: Store, sessionId: string, binding: R.Binding, step: R.Step)
    requires StoreOk(st, sessionId, binding)
    ensures StoreOk(Used(st, step), sessionId, binding)
    ensures R.Grows(st.Reg(), Used(st, step).Reg()) && Used(st, step).Reg().scopes == st.Reg().scopes
  {
    if !step.BindSession? {
      R.NextKeepsInv(st.sys, step);
      R.NextKeepsScopes(st.sys, step);
      if sessionId !in st.sys.reg.scopes {
        assert Used(st, step).sys == st.sys;
      } else if st.saved.Some? {
        R.GrowsTransitive(st.saved.value.from, st.Reg(), Used(st, step).Reg());
      }
    }
  }

  lemma BindFresh(st: Store, sessionId: string, binding: R.Binding)
    requires StoreOk(st, sessionId, binding) && sessionId != "" && sessionId !in st.sys.reg.scopes && st.saved.Some?
    ensures
      && Bound(st, sessionId, binding) == st.(sys := R.System(st.saved.value.from, map[], MintedOf(st.saved.value.from)))
      && StoreOk(Bound(st, sessionId, binding), sessionId, binding)
  {
    var saved, nonce := st.saved.value, st.sys.reg.nonce;
    RestoreIsIdentity(saved.from, sessionId, saved.dump, nonce);
    assert R.Bind(st.sys.reg, sessionId, binding, false).value == FreshlyBound(nonce, sessionId, binding) by {
      assert R.EmptyRegistry(nonce).scopes[sessionId := R.Scope(sessionId, binding, 1)]
          == map[sessionId := R.Scope(sessionId, binding, 1)];
    }
    assert R.Inv(R.System(saved.from, map[], MintedOf(saved.from)));
  }

  lemma BoundAgain(st: Store, sessionId: string, binding: R.Binding)
    requires sessionId != "" && sessionId in st.sys.reg.scopes && st.sys.reg.scopes[sessionId].binding == binding
    requires st.saved.Some? && Load(st.sys.reg, sessionId, st.saved.value.dump).Ok?
    ensures Bound(st, sessionId, binding)
         == st.(sys := st.sys.(reg := Load(st.sys.reg, sessionId, st.saved.value.dump).value))
  {
    assert R.Bind(st.sys.reg, sessionId, binding, false).value == st.sys.reg;
  }

  /** A registry that only grew, under the same scopes, still contains what was saved. */
  lemma GrownStoreOk(st: Store, sessionId: string, binding: R.Binding, sys: R.System)
    requires StoreOk(st, sessionId, binding) && sessionId in st.sys.reg.scopes
    requires R.Inv(sys) && R.Grows(st.sys.reg, sys.reg) && sys.reg.scopes == st.sys.reg.scopes
    ensures StoreOk(st.(sys := sys), sessionId, binding)
  {
    if st.saved.Some? {
      R.GrowsTransitive(st.saved.value.from, st.sys.reg, sys.reg);
    }
  }

  lemma BindAgain(st: Store, sessionId: string, binding: R.Binding)
    requires StoreOk(st, sessionId, binding) && sessionId != "" && sessionId in st.sys.reg.scopes && st.saved.Some?
    ensures
      var st' := Bound(st, sessionId, binding);
      && st' == st.(sys := st'.sys)
      && StoreOk(st', sessionId, binding)
      && R.Grows(st.Reg(), st'.Reg()) && st'.Reg().scopes == st.Reg().scopes
  {
    var saved := st.saved.value;
    ReloadKeepsInv(st.sys, saved.from, sessionId, saved.dump);
    BoundAgain(st, sessionId, binding);
    GrownStoreOk(st, sessionId, binding, Bound(st, sessionId, binding).sys);
  }

  lemma BindFirst(st: Store, sessionId: string, binding: R.Binding)
    requires StoreOk(st, sessionId, binding) && sessionId != "" && st.saved.None?
    ensures
      var st' := Bound(st, sessionId, binding);
      && st' == st.(sys := st'.sys)
      && StoreOk(st', sessionId, binding)
      && R.Grows(st.Reg(), st'.Reg()) && sessionId in st'.Reg().scopes
      && (sessionId in st.Reg().scopes ==> st'.Reg() == st.Reg())
  {
    R.BindKeepsInv(st.sys, sessionId, binding, false);
  }

  /** After a bind the session holds all that was saved, under the saved scope, and all it held before. */
  lemma BindKeepsOk(st: Store, sessionId: string, binding: R.Binding)
    requires StoreOk(st, sessionId, binding) && sessionId != ""
    ensures
      var st' := Bound(st, sessionId, binding);
      && st' == st.(sys := st'.sys)
      && StoreOk(st', sessionId, binding)
      && sessionId in st'.Reg().scopes
      && (sessionId in st.Reg().scopes ==> R.Grows(st.Reg(), st'.Reg()) && st'.Reg().scopes == st.Reg().scopes)
      && (sessionId !in st.Reg().scopes && st.saved.Some? ==> st'.Reg() == st.saved.value.from)
  {
    if st.saved.None? {
      BindFirst(st, sessionId, binding);
    } else if sessionId !in st.sys.reg.scopes {
      BindFresh(st, sessionId, binding);
    } else {
      BindAgain(st, sessionId, binding);
    }
  }

  lemma SaveKeepsOk(st: Store, sessionId: string, binding: R.Binding, dump: Dump)
    requires StoreOk(st, sessionId, binding) && IsDump(st.sys.reg, sessionId, dump)
    ensures StoreOk(SavedAs(st, dump), sessionId, binding)
  {
    MintedSpent(st.sys);
    assert st.sys.reg.scopes.Keys == {sessionId};
  }

  lemma ResetKeepsOk(st: Store, sessionId: string, binding: R.Binding, dump: Dump)
    requires StoreOk(st, sessionId, binding) && sessionId in st.sys.reg.scopes && sessionId != ""
    requires IsDump(Reset(st, sessionId, binding).Reg(), sessionId, dump)
    ensures StoreOk(SavedAs(Reset(st, sessionId, binding), dump), sessionId, binding)
    ensures R.Grows(st.Reg(), Reset(st, sessionId, binding).Reg())
  {
    R.BindKeepsInv(st.sys, sessionId, binding, true);
    var st' := Reset(st, sessionId, binding);
    MintedSpent(st'.sys);
    assert st'.sys.reg.scopes.Keys == {sessionId};
  }
}
