/** The set of public keys a relay listener lets in, and the operations that change it
    (components/common/src/access_control.rs). */
module AccessControl {

  type PublicKey = nat

  datatype AccessControlOp = Add(item: PublicKey) | Remove(item: PublicKey)

  function Apply(allowed: set<PublicKey>, op: AccessControlOp): set<PublicKey> {
    match op
    case Add(item) => allowed + {item}
    case Remove(item) => allowed - {item}
  }

  /** The set after a sequence of operations. */
  function ApplyAll(allowed: set<PublicKey>, ops: seq<AccessControlOp>): set<PublicKey> {
    if ops == [] then allowed else Apply(ApplyAll(allowed, ops[..|ops| - 1]), ops[|ops| - 1])
  }

  lemma ApplyAllAppend(allowed: set<PublicKey>, ops: seq<AccessControlOp>, op: AccessControlOp)
    ensures ApplyAll(allowed, ops + [op]) == Apply(ApplyAll(allowed, ops), op)
  {
    assert (ops + [op])[..|ops|] == ops;
  }

  /** An item is allowed exactly when some operation added it and no later one removed it. */
  lemma {:induction false} AllowedIff(ops: seq<AccessControlOp>, item: PublicKey)
    ensures item in ApplyAll({}, ops) <==>
            exists i :: 0 <= i < |ops| && ops[i] == Add(item) && Remove(item) !in ops[i..]
  {
    if ops != [] {
      var n := |ops| - 1;
      var init := ops[..n];
      AllowedIff(init, item);
      if ops[n] == Add(item) {
        assert ops[n..] == [Add(item)];
      } else {
        forall i | 0 <= i < n
          ensures Remove(item) in ops[i..] <==> Remove(item) in init[i..] || ops[n] == Remove(item)
        {
          assert ops[i..] == init[i..] + [ops[n]];
        }
        if i :| 0 <= i < n && init[i] == Add(item) && Remove(item) !in init[i..] {
          assert ops[i] == Add(item);
        }
        if i :| 0 <= i < |ops| && ops[i] == Add(item) && Remove(item) !in ops[i..] {
          assert init[i] == Add(item);
        }
      }
    }
  }

  class AccessControl {
    var allowed: set<PublicKey>

    constructor ()
      ensures allowed == {}
    {
      allowed := {};
    }

    method ApplyOp(op: AccessControlOp)
      modifies this
      ensures allowed == Apply(old(allowed), op)
    {
      match op
      case Add(item) => allowed := allowed + {item};
      case Remove(item) => allowed := allowed - {item};
    }
  }
}
