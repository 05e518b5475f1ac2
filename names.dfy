/** The name-resolution properties of BaseName nodes (exprs.py:99-152) and
    the `name` property of single-token nodes (exprs.py:170).

    Lexical environments are abstract: an `EnvStore` maps an environment and
    a token to the ordered entries bound to that token there, and every entry
    has a parent environment. `Env` in the properties is the environment in
    which the property is evaluated; it is a parameter here. Building the
    environments is not part of this model. */
module NameResolution {
  import opened Tokens
  import opened Ast

  type EnvId = nat

  datatype Entry = Entry(parentEnv: EnvId)

  datatype EnvStore = EnvStore(bindings: map<EnvId, map<Token, seq<Entry>>>)

  /** `Env.get(tok)`: the entries bound to `tok` in `env`, none if unbound. */
  function Get(store: EnvStore, env: EnvId, tok: Token): (r: seq<Entry>)
    ensures r != [] ==> env in store.bindings && tok in store.bindings[env]
  {
    if env in store.bindings && tok in store.bindings[env] then store.bindings[env][tok] else []
  }

  /** `.at(0).parent_env`: the parent environment of the first entry. The
      source indexes an empty sequence when nothing is bound; that failure is
      `None` here. */
  function FirstParent(entries: seq<Entry>): (r: Option<EnvId>)
    ensures r.Some? <==> entries != []
    ensures r.Some? ==> r.value == entries[0].parentEnv
  {
    if entries == [] then None else Some(entries[0].parentEnv)
  }

  /** BaseId.env_elements (exprs.py:146-152): the entries bound to the
      token in the current environment, in order; none when it is unbound. */
  function EnvElements(store: EnvStore, id: Expr, env: EnvId): (r: seq<Entry>)
    requires IsBaseId(id)
    ensures env in store.bindings && id.tok in store.bindings[env] ==> r == store.bindings[env][id.tok]
    ensures !(env in store.bindings && id.tok in store.bindings[env]) ==> r == []
  {
    Get(store, env, id.tok)
  }

  /** designated_env (exprs.py:129-132 and 142). A BaseId designates the
      parent environment of the first of its env_elements; a NamePrefix
      evaluates its suffix in the environment its prefix designates. This
      resolves the segments of the name left to right, however the
      NamePrefix nodes group them. */
  function DesignatedEnv(store: EnvStore, n: Expr, env: EnvId): (r: Option<EnvId>)
    requires IsBaseName(n)
    ensures IsBaseId(n) ==> r == FirstParent(EnvElements(store, n, env))
    ensures r == ResolvePath(store, Segments(n), env)
  {
    if n.NamePrefix? then
      ResolvePathAppend(store, Segments(n.prefix), Segments(n.suffix), env);
      match DesignatedEnv(store, n.prefix, env)
      case None => None
      case Some(penv) => DesignatedEnv(store, n.suffix, penv)
    else
      assert Segments(n)[1..] == [];
      FirstParent(EnvElements(store, n, env))
  }

  /** scope (exprs.py:134 and 143). */
  function Scope(store: EnvStore, n: Expr, env: EnvId): (r: Option<EnvId>)
    requires IsBaseName(n)
    ensures !n.NamePrefix? ==> r == Some(env)
    ensures n.NamePrefix? ==> r == DesignatedEnv(store, n.prefix, env)
  {
    match n
    case NamePrefix(p, _) => DesignatedEnv(store, p, env)
    case _ => Some(env)
  }

  predicate HasRelativeName(n: Expr) {
    IsBaseName(n) || IsSingleTokNode(n)
  }

  /** name (exprs.py:136, 144 and 170): the relative name of the node, the
      last segment of a dotted name (`C` for `A.B.C`). */
  function RelativeName(n: Expr): (r: Token)
    requires HasRelativeName(n)
    ensures IsBaseName(n) ==> r == Segments(n)[|Segments(n)| - 1]
    ensures !n.NamePrefix? ==> r == n.tok
  {
    match n
    case NamePrefix(_, s) => RelativeName(s)
    case _ => n.tok
  }

  // ---------------------------------------------------------------------
  // An independent reading of a dotted name: its segments, left to right,
  // and the environment reached by resolving them one after the other.

  /** The identifier and string-literal tokens of a name, left to right. */
  function Segments(n: Expr): (r: seq<Token>)
    requires IsBaseName(n)
    ensures |r| > 0
  {
    match n
    case NamePrefix(p, s) => Segments(p) + Segments(s)
    case _ => [n.tok]
  }

  /** Resolve `segs` starting from `env`: each segment is looked up in the
      environment the previous one designates. */
  function ResolvePath(store: EnvStore, segs: seq<Token>, env: EnvId): Option<EnvId>
    decreases |segs|
  {
    if segs == [] then Some(env)
    else
      match FirstParent(Get(store, env, segs[0]))
      case None => None
      case Some(next) => ResolvePath(store, segs[1..], next)
  }

  /** Resolving a concatenation is resolving the first part, then the
      second from where the first ends. */
  lemma {:induction false} ResolvePathAppend(store: EnvStore, a: seq<Token>, b: seq<Token>, env: EnvId)
    ensures ResolvePath(store, a + b, env) ==
      match ResolvePath(store, a, env)
      case None => None
      case Some(mid) => ResolvePath(store, b, mid)
    decreases |a|
  {
    if a == [] {
      assert a + b == b;
    } else {
      assert (a + b)[0] == a[0];
      assert (a + b)[1..] == a[1..] + b;
      match FirstParent(Get(store, env, a[0]))
      case None =>
      case Some(next) => ResolvePathAppend(store, a[1..], b, next);
    }
  }

  /** A left-nested chain, the shape `static_name` builds: every suffix is
      a single identifier or string literal. */
  predicate IsStaticName(n: Expr) {
    match n
    case NamePrefix(p, s) => IsStaticName(p) && IsBaseId(s)
    case _ => IsBaseId(n)
  }

  lemma {:induction false} StaticNameIsBaseName(n: Expr)
    requires IsStaticName(n)
    ensures IsBaseName(n)
  {
    if n.NamePrefix? {
      StaticNameIsBaseName(n.prefix);
    }
  }

  /** For a left-nested chain, the designated environment is found by
      looking the relative name up in the scope, and the scope itself is
      the environment the name minus its last segment resolves to. */
  lemma StaticNameScopeAndName(store: EnvStore, n: Expr, env: EnvId)
    requires IsStaticName(n)
    ensures IsBaseName(n)
    ensures var segs := Segments(n);
      && Scope(store, n, env) == ResolvePath(store, segs[..|segs| - 1], env)
      && DesignatedEnv(store, n, env) ==
           match Scope(store, n, env)
           case None => None
           case Some(sc) => FirstParent(Get(store, sc, RelativeName(n)))
  {
    StaticNameIsBaseName(n);
    if n.NamePrefix? {
      StaticNameIsBaseName(n.prefix);
      assert Segments(n)[..|Segments(n)| - 1] == Segments(n.prefix);
    }
  }
}
