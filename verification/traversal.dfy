/** The set-up and key-coercion layer of the traversal engine: defaulting
    a traversal configuration, the default link-target prototype chooser,
    initialising a progress cursor, and turning a key node into a path
    segment. Go's in-place initialisation of pointed-to structs is modelled
    by pure functions that return the initialised value. */
module Traversal {
  import opened Wrappers
  import opened Datamodel

  /** An opaque execution context; `Background` is the never-cancelled root. */
  datatype Context = Background | Derived(id: nat)

  /** A link-target prototype chooser. Go stores a closure; the model
      stores which closure it is. `CustomChooser(id)` names one supplied by
      the caller, whose behaviour is given separately as a `ChooserImpl`. */
  datatype Chooser = DefaultChooser | CustomChooser(id: nat)

  /** An opaque link-loading capability. */
  datatype Loader = Loader(id: nat)

  /** What a chooser is told about the link it must choose for. */
  datatype LinkContext = LinkContext(
    ctx: Option<Context>,
    linkPath: seq<PathSegment>,
    linkNode: Option<Node>,
    parentNode: Option<Node>)

  /** The behaviour of the caller-supplied choosers, indexed by their id. */
  type ChooserImpl = (nat, Link, LinkContext) -> Result<Prototype, string>

  /** A traversal configuration; `None` stands for a nil field. */
  datatype Config = Config(
    ctx: Option<Context>,
    loader: Option<Loader>,
    chooser: Option<Chooser>,
    visitOnlyOnce: bool)

  /** A progress cursor: its (possibly nil) configuration, the path walked
      so far, and the (possibly nil) set of links already visited. */
  datatype Progress = Progress(
    cfg: Option<Config>,
    path: seq<PathSegment>,
    seenLinks: Option<set<Link>>)

  /** Why a node cannot serve as a path segment; Go panics with it. */
  datatype SegmentError = CannotGetPathSegment(kind: Kind)

  const NoChooserConfigured: string := "no LinkTargetNodePrototypeChooser configured"

  /** The zero value `Config{}`. */
  const ZeroConfig: Config := Config(None, None, None, false)

  /** A configuration whose context and chooser are both set. */
  predicate Initialized(c: Config) {
    c.ctx.Some? && c.chooser.Some?
  }

  /** `Config.init`: a nil context becomes the background context, then a
      nil chooser becomes the default chooser. Nothing else is touched. */
  function InitConfig(c: Config): (r: Config)
    ensures Initialized(r)
    ensures c.ctx.Some? ==> r.ctx == c.ctx
    ensures c.ctx.None? ==> r.ctx == Some(Background)
    ensures c.chooser.Some? ==> r.chooser == c.chooser
    ensures c.chooser.None? ==> r.chooser == Some(DefaultChooser)
    ensures r.loader == c.loader && r.visitOnlyOnce == c.visitOnlyOnce
  {
    var withCtx := if c.ctx.None? then c.(ctx := Some(Background)) else c;
    if withCtx.chooser.None? then withCtx.(chooser := Some(DefaultChooser)) else withCtx
  }

  /** The closure installed as the default chooser: it defers to the link
      node's declared target prototype when the link node is a typed link
      node, and fails otherwise. The link itself is not consulted. */
  function DefaultChoose(lnk: Link, lc: LinkContext): (r: Result<Prototype, string>)
    ensures r.Success? <==> lc.linkNode.Some? && IsTypedLinkNode(lc.linkNode.value)
    ensures r.Success? ==> r.value == LinkTargetNodePrototype(lc.linkNode.value)
    ensures r.Failure? ==> r.error == NoChooserConfigured
  {
    if lc.linkNode.Some? && IsTypedLinkNode(lc.linkNode.value) then
      Success(LinkTargetNodePrototype(lc.linkNode.value))
    else
      Failure(NoChooserConfigured)
  }

  /** Calls a chooser: the default closure, or the caller's own. */
  function ApplyChooser(ch: Chooser, custom: ChooserImpl, lnk: Link, lc: LinkContext): Result<Prototype, string>
  {
    match ch
    case DefaultChooser => DefaultChoose(lnk, lc)
    case CustomChooser(id) => custom(id, lnk, lc)
  }

  /** `Progress.init`: a nil configuration becomes a fresh zero one, the
      configuration is initialised, and under visit-once the seen-links set
      is replaced by a fresh empty set. */
  function InitProgress(p: Progress): (r: Progress)
    ensures r.cfg.Some? && Initialized(r.cfg.value)
    ensures p.cfg.Some? ==> r.cfg == Some(InitConfig(p.cfg.value))
    ensures p.cfg.None? ==> r.cfg == Some(InitConfig(ZeroConfig))
    ensures r.cfg.value.visitOnlyOnce ==> r.seenLinks == Some({})
    ensures !r.cfg.value.visitOnlyOnce ==> r.seenLinks == p.seenLinks
    ensures r.path == p.path
  {
    var cfg := InitConfig(if p.cfg.None? then ZeroConfig else p.cfg.value);
    var withCfg := p.(cfg := Some(cfg));
    if cfg.visitOnlyOnce then withCfg.(seenLinks := Some({})) else withCfg
  }

  /** The node whose kind decides a key's segment: a schema-typed node's
      representation, any other node itself. The unwrap is done once. */
  function KeyView(n: Node): Node {
    if IsTyped(n) then Representation(n) else n
  }

  /** The kinds that can serve as a map key or list index. */
  predicate IsKeyKind(k: Kind) {
    k == StringKind || k == IntKind
  }

  /** `asPathSegment`: a string key gives a string segment, an int key an
      int segment, judged on the key's view; any other kind is the panic
      case, returned here as a failure naming the offending kind. */
  function AsPathSegment(n: Node): (r: Result<PathSegment, SegmentError>)
    ensures r.Success? <==> IsKeyKind(KeyView(n).kind)
    ensures r.Success? ==> (r.value.StringSegment? <==> KeyView(n).kind == StringKind)
    ensures r.Success? && r.value.StringSegment? ==> r.value.s == KeyView(n).text
    ensures r.Success? && r.value.IntSegment? ==> r.value.i == KeyView(n).number
    ensures r.Failure? ==> r.error == CannotGetPathSegment(KeyView(n).kind)
  {
    var v := KeyView(n);
    match v.kind
    case StringKind => Success(StringSegment(v.text))
    case IntKind => Success(IntSegment(v.number))
    case _ => Failure(CannotGetPathSegment(v.kind))
  }
}
