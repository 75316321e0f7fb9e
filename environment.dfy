/**
  Start-up rewriting of the process environment: every variable whose value
  contains the placeholder `${DOMAIN}` has its first occurrence replaced by
  the current value of the variable `DOMAIN`.
 */
module Environment {
  import opened Wrappers
  import opened JsString

  const Placeholder: string := "${DOMAIN}"
  const DomainKey: string := "DOMAIN"

  /**
    The replacement `replace` receives: the value of `DOMAIN`, or the text
    "undefined" (what JavaScript's ToString makes of `undefined`) when it is
    not set.
   */
  function DomainText(env: map<string, string>): string
  {
    if DomainKey in env then env[DomainKey] else "undefined"
  }

  /** `keys` lists every variable of `env` exactly once, as `Object.keys` does. */
  predicate Enumerates(keys: seq<string>, env: map<string, string>)
  {
    && (forall i :: 0 <= i < |keys| ==> keys[i] in env)
    && (forall k :: k in env ==> k in keys)
    && (forall i, j :: 0 <= i < j < |keys| ==> keys[i] != keys[j])
  }

  /** One call of the `forEach` callback, for variable `key`. */
  function ExpandStep(env: map<string, string>, key: string): (r: map<string, string>)
    requires key in env
    ensures r.Keys == env.Keys
    ensures forall k :: k in env && k != key ==> r[k] == env[k]
  {
    if !Includes(env[key], Placeholder) then env
    else env[key := ReplaceFirst(env[key], Placeholder, DomainText(env))]
  }

  /** The environment after the callback has run for `keys`, in that order. */
  function ExpandAll(env: map<string, string>, keys: seq<string>): (r: map<string, string>)
    requires forall i :: 0 <= i < |keys| ==> keys[i] in env
    ensures r.Keys == env.Keys
    decreases |keys|
  {
    if keys == [] then env
    else ExpandStep(ExpandAll(env, keys[..|keys| - 1]), keys[|keys| - 1])
  }

  /** `DOMAIN` itself holds the placeholder, so the loop may rewrite it. */
  predicate SelfReferential(env: map<string, string>)
  {
    DomainKey in env && Includes(env[DomainKey], Placeholder)
  }

  /**
    Order-independent reference: every value that contains the placeholder
    has its first occurrence replaced by the original `DOMAIN` text.
   */
  function Expanded(env: map<string, string>): map<string, string>
  {
    map k | k in env :: if Includes(env[k], Placeholder)
                        then ReplaceFirst(env[k], Placeholder, DomainText(env))
                        else env[k]
  }

  /** A value without the placeholder is never changed. */
  lemma {:induction false} ExpandKeepsPlainValue(env: map<string, string>, keys: seq<string>, k: string)
    requires forall i :: 0 <= i < |keys| ==> keys[i] in env
    requires k in env && !Includes(env[k], Placeholder)
    ensures ExpandAll(env, keys)[k] == env[k]
    decreases |keys|
  {
    if keys != [] {
      ExpandKeepsPlainValue(env, keys[..|keys| - 1], k);
    }
  }

  /** A variable not yet visited keeps its value. */
  lemma {:induction false} ExpandKeepsUnvisited(env: map<string, string>, keys: seq<string>, k: string)
    requires forall i :: 0 <= i < |keys| ==> keys[i] in env
    requires k in env && k !in keys
    ensures ExpandAll(env, keys)[k] == env[k]
    decreases |keys|
  {
    if keys != [] {
      ExpandKeepsUnvisited(env, keys[..|keys| - 1], k);
    }
  }

  /**
    The final value of the `i`-th visited variable: its original value with
    the placeholder replaced by the text of `DOMAIN` as it stood when that
    variable was visited.
   */
  lemma {:induction false} ExpandValueAt(env: map<string, string>, keys: seq<string>, i: nat)
    requires forall j :: 0 <= j < |keys| ==> keys[j] in env
    requires forall a, b :: 0 <= a < b < |keys| ==> keys[a] != keys[b]
    requires i < |keys|
    ensures var k := keys[i];
            ExpandAll(env, keys)[k] ==
              if Includes(env[k], Placeholder)
              then ReplaceFirst(env[k], Placeholder, DomainText(ExpandAll(env, keys[..i])))
              else env[k]
    decreases |keys|
  {
    var n := |keys| - 1;
    var front := keys[..n];
    if i == n {
      ExpandKeepsUnvisited(env, front, keys[i]);
      assert keys[..i] == front;
    } else {
      ExpandValueAt(env, front, i);
      assert front[..i] == keys[..i];
    }
  }

  /**
    When `DOMAIN` does not itself hold the placeholder, the loop computes the
    reference rewriting, whatever order the variables are visited in.
   */
  lemma ExpandMatchesReference(env: map<string, string>, keys: seq<string>)
    requires Enumerates(keys, env)
    ensures !SelfReferential(env) ==> ExpandAll(env, keys) == Expanded(env)
  {
    if !SelfReferential(env) {
      forall k | k in env
        ensures ExpandAll(env, keys)[k] == Expanded(env)[k]
      {
        ExpandMatchesReferenceAt(env, keys, k);
      }
    }
  }

  /** The reference value of one variable, found where the loop visits it. */
  lemma ExpandMatchesReferenceAt(env: map<string, string>, keys: seq<string>, k: string)
    requires Enumerates(keys, env)
    requires !SelfReferential(env)
    requires k in env
    ensures ExpandAll(env, keys)[k] == Expanded(env)[k]
  {
    var i :| 0 <= i < |keys| && keys[i] == k;
    ExpandValueAt(env, keys, i);
    if DomainKey in env {
      ExpandKeepsPlainValue(env, keys[..i], DomainKey);
    }
  }

  /**
    An instance of the order dependence: when `DOMAIN` is visited first and
    holds the placeholder, later variables receive the rewritten `DOMAIN`.
   */
  lemma SelfReferenceDependsOnOrder()
    ensures var env := map[DomainKey := Placeholder + ".a", "URL" := Placeholder];
            ExpandAll(env, [DomainKey, "URL"])["URL"] == Placeholder + ".a.a" &&
            ExpandAll(env, ["URL", DomainKey])["URL"] == Placeholder + ".a"
  {
    var env := map[DomainKey := Placeholder + ".a", "URL" := Placeholder];
    PlaceholderSuffix(".a");
    PlaceholderSuffix(".a.a");
    assert Placeholder + "" == Placeholder;
    ReplacePlaceholderPrefix(".a", Placeholder + ".a");
    ReplacePlaceholderPrefix("", Placeholder + ".a.a");
    ReplacePlaceholderPrefix("", Placeholder + ".a");
    assert Placeholder + ".a" + ".a" == Placeholder + ".a.a";

    ExpandTwo(env, DomainKey, "URL");
    var d := ExpandStep(env, DomainKey);
    assert d[DomainKey] == Placeholder + ".a.a";
    assert d["URL"] == Placeholder;
    ExpandTwo(env, "URL", DomainKey);
    var u := ExpandStep(env, "URL");
    assert u["URL"] == Placeholder + ".a";
  }

  /** A value that starts with the placeholder has that occurrence replaced. */
  lemma ReplacePlaceholderPrefix(tail: string, rep: string)
    requires NoDollarPattern(rep)
    ensures Includes(Placeholder + tail, Placeholder)
    ensures ReplaceFirst(Placeholder + tail, Placeholder, rep) == rep + tail
  {
    var s := Placeholder + tail;
    assert s[0..|Placeholder|] == Placeholder;
    assert MatchAt(s, Placeholder, 0);
    IncludesIff(s, Placeholder);
    ReplaceFirstLiteral(s, Placeholder, rep, 0);
    assert s[|Placeholder|..] == tail;
  }

  /** The placeholder followed by `$`-free text contains no `$` pattern. */
  lemma PlaceholderSuffix(tail: string)
    requires '$' !in tail
    ensures NoDollarPattern(Placeholder + tail)
  {
    var s := Placeholder + tail;
    forall i | 0 <= i < |s| - 1 && s[i] == '$'
      ensures s[i + 1] !in "$&`'"
    {
      if i < |Placeholder| {
        assert i == 0;
      }
    }
  }

  /** Visiting one more variable is one more step. */
  lemma ExpandAllPrefix(env: map<string, string>, keys: seq<string>, i: nat)
    requires forall j :: 0 <= j < |keys| ==> keys[j] in env
    requires i < |keys|
    ensures keys[i] in ExpandAll(env, keys[..i])
    ensures ExpandAll(env, keys[..i + 1]) == ExpandStep(ExpandAll(env, keys[..i]), keys[i])
  {
    assert keys[..i + 1][..i] == keys[..i];
  }

  /** Visiting two variables is two steps. */
  lemma ExpandTwo(env: map<string, string>, a: string, b: string)
    requires a in env && b in env
    ensures ExpandAll(env, [a, b]) == ExpandStep(ExpandStep(env, a), b)
  {
    assert [a, b][..1] == [a];
    assert [a][..0] == [];
    assert ExpandAll(env, [a]) == ExpandStep(env, a);
  }

  /** The process environment, whose values the start-up loop rewrites in place. */
  class ProcessEnv {
    var vars: map<string, string>

    constructor (initial: map<string, string>)
      ensures vars == initial
    {
      vars := initial;
    }

    /**
      `Object.keys(process.env).forEach(...)`; `keys` is the order in which
      `Object.keys` lists the variables.
     */
    method ExpandDomain(keys: seq<string>)
      requires Enumerates(keys, vars)
      modifies this
      ensures vars == ExpandAll(old(vars), keys)
      ensures vars.Keys == old(vars).Keys
      ensures !SelfReferential(old(vars)) ==> vars == Expanded(old(vars))
    {
      ghost var env := vars;
      var i := 0;
      while i < |keys|
        invariant 0 <= i <= |keys|
        invariant vars == ExpandAll(env, keys[..i])
      {
        var key := keys[i];
        ExpandAllPrefix(env, keys, i);
        if Includes(vars[key], Placeholder) {
          vars := vars[key := ReplaceFirst(vars[key], Placeholder, DomainText(vars))];
        }
        i := i + 1;
      }
      assert keys[..i] == keys;
      ExpandMatchesReference(env, keys);
    }
  }
}
