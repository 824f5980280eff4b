/**
 * `Transaction`: the async context manager around a database session that
 * supports nesting. A context-wide level counts the open transactions;
 * only the outermost one commits or rolls back, and inner ones only keep
 * the count.
 */
module Transaction {
  import opened Wrappers

  /** The `transaction_level` context variable (default 0). */
  class LevelContext {
    var level: nat

    constructor()
      ensures level == 0
    {
      level := 0;
    }
  }

  /** `in_transaction`: some transaction is open in this context. */
  function InTransaction(ctx: LevelContext): (b: bool)
    reads ctx
    ensures !b <==> ctx.level == 0
  {
    ctx.level > 0
  }

  /** The call `__aexit__` makes on the session. */
  datatype SessionCall = NoCall | Commit | Rollback

  /** How `__aexit__` ends: it returns whether to suppress the exception, or the session call raises. */
  datatype ExitOutcome = Returned(suppress: bool) | Raised

  class Transaction {
    const ctx: LevelContext
    /** The context-variable token of `__aenter__`: the level it replaced. */
    var token: Option<nat>
    var isOutermost: bool

    constructor(ctx: LevelContext)
      ensures this.ctx == ctx && token == None && !isOutermost
    {
      this.ctx := ctx;
      token := None;
      isOutermost := false;
    }

    /** The transaction has been entered: it holds its entry level, and is outermost exactly when that is 0. */
    predicate Entered()
      reads this
    {
      token.Some? && (isOutermost <==> token.value == 0)
    }

    /** `__aenter__`: outermost exactly at level 0; the level rises by one and the old level is kept for the exit. */
    method Enter()
      modifies this, ctx
      ensures isOutermost <==> old(ctx.level) == 0
      ensures ctx.level == old(ctx.level) + 1 && InTransaction(ctx)
      ensures token == Some(old(ctx.level)) && Entered()
    {
      var level := ctx.level;
      isOutermost := level == 0;
      token := Some(level);
      ctx.level := level + 1;
    }

    /**
     * `__aexit__`. With an exception (`failed`) only the outermost
     * transaction rolls back, and the exception is never suppressed; without
     * one only the outermost commits. Whatever happens, and even when the
     * session call itself raises (`sessionRaises`), the level goes back to
     * the one seen at entry.
     */
    method Exit(failed: bool, sessionRaises: bool) returns (call: SessionCall, r: ExitOutcome)
      modifies ctx
      ensures call == (if !isOutermost then NoCall else if failed then Rollback else Commit)
      ensures r == (if call != NoCall && sessionRaises then Raised else Returned(!failed))
      ensures token.Some? ==> ctx.level == token.value
      ensures token.None? ==> ctx.level == old(ctx.level)
      ensures Entered() ==> (InTransaction(ctx) <==> !isOutermost)
    {
      if failed {
        call := if isOutermost then Rollback else NoCall;
        r := if isOutermost && sessionRaises then Raised else Returned(false);
      } else {
        call := if isOutermost then Commit else NoCall;
        r := if isOutermost && sessionRaises then Raised else Returned(true);
      }
      if token.Some? {
        ctx.level := token.value;
      }
    }
  }
}
