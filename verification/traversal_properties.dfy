/** Properties relating several calls of the traversal set-up functions:
    idempotence, fixpoints, what the installed defaults do, and how key
    coercion treats typed and plain nodes. */
module TraversalProperties {
  import opened Wrappers
  import opened Datamodel
  import opened Traversal

  // ---------------------------------------------------------------------
  // Config.init

  /** Initialising an initialised configuration changes nothing. */
  lemma InitConfigIdempotent(c: Config)
    ensures InitConfig(InitConfig(c)) == InitConfig(c)
  {
  }

  /** The configurations `Config.init` leaves alone are exactly those whose
      context and chooser are already set. */
  lemma InitConfigFixpoint(c: Config)
    ensures InitConfig(c) == c <==> Initialized(c)
  {
  }

  /** The zero configuration initialises to the background context, the
      default chooser, no loader and visit-once off: no loader default is
      installed. */
  lemma InitZeroConfig()
    ensures InitConfig(ZeroConfig) == Config(Some(Background), None, Some(DefaultChooser), false)
  {
  }

  /** After `Config.init`, the configured chooser behaves like the
      caller's chooser when one was given and like the default closure
      otherwise, whatever link and link context it is asked about. */
  lemma InitConfigChooserBehaviour(c: Config, custom: ChooserImpl, lnk: Link, lc: LinkContext)
    ensures c.chooser.Some? ==>
      ApplyChooser(InitConfig(c).chooser.value, custom, lnk, lc) == ApplyChooser(c.chooser.value, custom, lnk, lc)
    ensures c.chooser.None? ==>
      ApplyChooser(InitConfig(c).chooser.value, custom, lnk, lc) == DefaultChoose(lnk, lc)
  {
  }

  /** Any present link node that is not itself a typed link node is
      refused by the default chooser, whatever else it is. */
  lemma DefaultChooserRefusesOtherNodes(lnk: Link, lc: LinkContext)
    requires lc.linkNode.Some? && !IsTypedLinkNode(lc.linkNode.value)
    ensures DefaultChoose(lnk, lc) == Failure(NoChooserConfigured)
  {
  }

  /** The default chooser type-checks the link node itself, not its
      representation: a typed node that is not a typed link node is
      refused even when its representation is a typed link node. */
  lemma DefaultChooserDoesNotUnwrap()
    ensures exists lc: LinkContext ::
      && lc.linkNode.Some?
      && IsTyped(lc.linkNode.value)
      && !IsTypedLinkNode(lc.linkNode.value)
      && IsTypedLinkNode(Representation(lc.linkNode.value))
      && DefaultChoose(Link(0), lc) == Failure(NoChooserConfigured)
  {
    var inner := Node(LinkKind, "", 0, None, Some(Prototype(1)));
    var outer := Node(LinkKind, "", 0, Some(inner), None);
    var lc := LinkContext(None, [], Some(outer), None);
    assert DefaultChoose(Link(0), lc) == Failure(NoChooserConfigured);
  }

  // ---------------------------------------------------------------------
  // Progress.init

  /** Initialising a progress cursor twice is the same as once. */
  lemma InitProgressIdempotent(p: Progress)
    ensures InitProgress(InitProgress(p)) == InitProgress(p)
  {
  }

  /** A cursor without a configuration gets the initialised zero
      configuration and, visit-once being off there, keeps its seen-links. */
  lemma InitProgressNilConfig(p: Progress)
    requires p.cfg.None?
    ensures InitProgress(p) == p.(cfg := Some(Config(Some(Background), None, Some(DefaultChooser), false)))
  {
  }

  /** After `Progress.init` the seen-links set is present and empty exactly
      when visit-once is on or it already was present and empty. */
  lemma InitProgressSeenLinks(p: Progress)
    ensures var r := InitProgress(p);
      r.seenLinks == Some({}) <==> r.cfg.value.visitOnlyOnce || p.seenLinks == Some({})
  {
  }

  /** Under visit-once, links recorded before `Progress.init` are forgotten. */
  lemma InitProgressForgetsSeenLinks(p: Progress, lnk: Link)
    requires p.cfg.Some? && p.cfg.value.visitOnlyOnce
    requires p.seenLinks.Some? && lnk in p.seenLinks.value
    ensures InitProgress(p).seenLinks.Some?
    ensures lnk !in InitProgress(p).seenLinks.value
  {
  }

  // ---------------------------------------------------------------------
  // asPathSegment

  /** Every segment survives the trip through its plain key node. */
  lemma AsPathSegmentRoundTrip(seg: PathSegment)
    ensures AsPathSegment(PlainKeyNode(seg)) == Success(seg)
  {
  }

  /** A successful coercion of a plain node yields the segment whose plain
      key node has the same kind and key value. */
  lemma AsPathSegmentPlainInverse(n: Node, seg: PathSegment)
    requires !IsTyped(n)
    requires AsPathSegment(n) == Success(seg)
    ensures n.kind == PlainKeyNode(seg).kind
    ensures n.kind == StringKind ==> n.text == PlainKeyNode(seg).text
    ensures n.kind == IntKind ==> n.number == PlainKeyNode(seg).number
  {
  }

  /** A typed node with a plain representation converts exactly as that
      representation does. */
  lemma AsPathSegmentTypedUsesRepresentation(n: Node)
    requires IsTyped(n) && !IsTyped(Representation(n))
    ensures AsPathSegment(n) == AsPathSegment(Representation(n))
  {
  }

  /** The typed node's own kind is not consulted: a struct represented as a
      string is a valid key, and a string-kinded typed node represented as
      a map is not. */
  lemma AsPathSegmentIgnoresTypedKind()
    ensures exists n :: IsTyped(n) && n.kind == MapKind && AsPathSegment(n) == Success(StringSegment("k"))
    ensures exists n :: IsTyped(n) && n.kind == StringKind && AsPathSegment(n).Failure?
  {
    var structKey := Node(MapKind, "", 0, Some(Node(StringKind, "k", 0, None, None)), None);
    assert AsPathSegment(structKey) == Success(StringSegment("k"));
    var mapRepr := Node(StringKind, "k", 0, Some(Node(MapKind, "", 0, None, None)), None);
    assert AsPathSegment(mapRepr).Failure?;
  }

  /** The representation is taken once: when the representation is itself
      typed, its own kind decides, and its representation is not looked at. */
  lemma AsPathSegmentUnwrapsOnce()
    ensures exists n ::
      && IsTyped(n)
      && IsTyped(Representation(n))
      && AsPathSegment(n) == Failure(CannotGetPathSegment(MapKind))
      && AsPathSegment(Representation(n)) == Success(StringSegment("k"))
  {
    var repr := Node(MapKind, "", 0, Some(Node(StringKind, "k", 0, None, None)), None);
    var n := Node(MapKind, "", 0, Some(repr), None);
    assert AsPathSegment(n) == Failure(CannotGetPathSegment(MapKind));
    assert AsPathSegment(repr) == Success(StringSegment("k"));
  }

  /** For every typed node, only its representation matters: two typed
      nodes with the same representation coerce alike, whatever their own
      kinds and payloads. */
  lemma AsPathSegmentTypedKindIgnored(n1: Node, n2: Node)
    requires IsTyped(n1) && n1.repr == n2.repr
    ensures AsPathSegment(n1) == AsPathSegment(n2)
  {
  }

  /** For every typed node, the coercion is that of its representation
      with the representation's own typing stripped: the representation is
      classified by its own kind and never unwrapped again. */
  lemma AsPathSegmentUnwrapsOnlyOnce(n: Node)
    requires IsTyped(n)
    ensures AsPathSegment(n) == AsPathSegment(Representation(n).(repr := None))
  {
  }
}
