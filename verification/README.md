# Traversal set-up and key coercion of go-ipld-prime

This project models the set-up layer of the IPLD traversal engine vendored
in `vendor/github.com/ipld/go-ipld-prime/traversal/common.go`: how a
traversal configuration is given its defaults (`Config.init`), what the
default link-target prototype chooser does, how a progress cursor is
initialised (`Progress.init`), and how a map key or list index node is
coerced into a path segment (`asPathSegment`).

The model is functional. The fields Go may leave nil are `Option` values:
the config's context and chooser, the cursor's config and seen-links map,
and the link context's link node; the in-place `init` methods are functions returning the
initialised value; the chooser closure is a tag (`DefaultChooser` or
`CustomChooser(id)`) whose caller-supplied behaviour is a function
parameter; the panic in `asPathSegment` is a `Failure` naming the offending
kind. A node records, independently, whether it is schema-typed (then it
carries its representation node) and whether it is a typed link node (then
it carries its declared link-target prototype). `AsInt` values are 64-bit
(`Int64`).

Files:
- `wrappers.dfy` — `Option` and `Result`.
- `datamodel.dfy` — kinds, nodes, links, prototypes, path segments.
- `traversal.dfy` — `InitConfig`, `DefaultChoose`, `InitProgress`, `AsPathSegment`, and `ApplyChooser`, which calls a chooser tag.
- `traversal_properties.dfy` — lemmas relating these.

## Model

| member | source | states |
|---|---|---|
| Traversal.InitConfig | vendor/github.com/ipld/go-ipld-prime/traversal/common.go:18-30 | the result always has a context and a chooser; a nil context becomes the background context and a set one is kept; a nil chooser becomes the default chooser and a set one is kept; loader and visit-once are untouched |
| Traversal.DefaultChoose | vendor/github.com/ipld/go-ipld-prime/traversal/common.go:23-28 | succeeds exactly when the link node is present and is a typed link node, then with that node's declared target prototype; otherwise fails with "no LinkTargetNodePrototypeChooser configured" |
| Traversal.InitProgress | vendor/github.com/ipld/go-ipld-prime/traversal/common.go:32-40 | a nil config is replaced by the zero config; the config is always present and initialised afterwards; the seen-links set becomes present and empty under visit-once and is left as it was otherwise; the path is untouched |
| Traversal.AsPathSegment | vendor/github.com/ipld/go-ipld-prime/traversal/common.go:47-61 | succeeds exactly when the key view (representation of a typed node, else the node) has string or int kind, with a segment of that kind carrying the same text or number; every other kind fails naming that kind |
| TraversalProperties.InitConfigIdempotent | vendor/github.com/ipld/go-ipld-prime/traversal/common.go:18-30 | applying `Config.init` twice equals applying it once |
| TraversalProperties.InitConfigFixpoint | vendor/github.com/ipld/go-ipld-prime/traversal/common.go:12-30 | `Config.init` leaves a config unchanged if and only if its context and chooser are already set: only zero-valued fields are filled |
| TraversalProperties.InitZeroConfig | vendor/github.com/ipld/go-ipld-prime/traversal/common.go:15-30 | the zero config initialises to background context, default chooser, no loader and visit-once off: no loader default is installed |
| TraversalProperties.InitConfigChooserBehaviour | vendor/github.com/ipld/go-ipld-prime/traversal/common.go:22-29 | after `Config.init` the chooser answers as the caller's chooser when one was set and as the default closure otherwise, for every link and link context |
| TraversalProperties.DefaultChooserRefusesOtherNodes | vendor/github.com/ipld/go-ipld-prime/traversal/common.go:24-27 | every present link node that is not itself a typed link node is refused with "no LinkTargetNodePrototypeChooser configured" |
| TraversalProperties.DefaultChooserDoesNotUnwrap | vendor/github.com/ipld/go-ipld-prime/traversal/common.go:24-27 | the default chooser type-checks the link node itself: there is a typed node that is not itself a typed link node, whose representation is a typed link node, and which is refused |
| TraversalProperties.InitProgressIdempotent | vendor/github.com/ipld/go-ipld-prime/traversal/common.go:32-40 | applying `Progress.init` twice equals applying it once |
| TraversalProperties.InitProgressNilConfig | vendor/github.com/ipld/go-ipld-prime/traversal/common.go:33-36 | a cursor without a config ends with the initialised zero config and every other field, seen-links included, unchanged |
| TraversalProperties.InitProgressSeenLinks | vendor/github.com/ipld/go-ipld-prime/traversal/common.go:37-39 | after `Progress.init` the seen-links set is present and empty if and only if visit-once is on or it was already present and empty |
| TraversalProperties.InitProgressForgetsSeenLinks | vendor/github.com/ipld/go-ipld-prime/traversal/common.go:37-39 | under visit-once a link recorded before `Progress.init` is no longer recorded afterwards |
| TraversalProperties.AsPathSegmentRoundTrip | vendor/github.com/ipld/go-ipld-prime/traversal/common.go:51-57 | every segment is recovered from the plain key node carrying its text or number |
| TraversalProperties.AsPathSegmentPlainInverse | vendor/github.com/ipld/go-ipld-prime/traversal/common.go:51-57 | a plain node that coerces to a segment has that segment's kind and key value |
| TraversalProperties.AsPathSegmentTypedUsesRepresentation | vendor/github.com/ipld/go-ipld-prime/traversal/common.go:48-50 | a typed node with a plain representation coerces exactly as its representation |
| TraversalProperties.AsPathSegmentIgnoresTypedKind | vendor/github.com/ipld/go-ipld-prime/traversal/common.go:42-50 | examples that a typed node's own kind is not consulted: there is a map-kinded typed node with a string representation that is a valid key, and a string-kinded one with a map representation that is not |
| TraversalProperties.AsPathSegmentTypedKindIgnored | vendor/github.com/ipld/go-ipld-prime/traversal/common.go:48-51 | any two typed nodes with the same representation coerce alike, whatever their own kinds and payloads |
| TraversalProperties.AsPathSegmentUnwrapsOnlyOnce | vendor/github.com/ipld/go-ipld-prime/traversal/common.go:48-51 | for every typed node, the coercion is that of its representation with the representation's own typing stripped: it is classified by its own kind and not unwrapped again |
| TraversalProperties.AsPathSegmentUnwrapsOnce | vendor/github.com/ipld/go-ipld-prime/traversal/common.go:48-51 | the representation is taken once: a typed node whose typed representation is map-kinded fails although that representation would itself coerce to a string segment |

## Left out

- Traversal.DefaultChoose: a typed link node is any node offering a declared link-target prototype, independently of whether it is schema-typed; the declaration of that interface is not part of this model.
- `context.Context` behaviour (cancellation, deadlines, values): a context is an opaque token and `Background` a distinguished one.
- Go pointer aliasing: `Progress.init` initialises the `Config` its pointer refers to, so a caller holding the same pointer sees the change; the model returns a new value instead.
- A nil key node, or a typed key node whose `Representation()` is nil, makes `asPathSegment` panic with a nil dereference at the `Kind()` call (`vendor/github.com/ipld/go-ipld-prime/traversal/common.go:51`) rather than with the kind error; nodes in the model are never nil, so this panic is not modelled.
- Go map identity: a fresh seen-links map is modelled as `Some({})`, so a reset map and an untouched empty map are indistinguishable.
- Any Config fields these functions never read are summarised by the single `loader` field.
- What `Representation()` and `LinkTargetNodePrototype()` compute, and node internals generally: these are fields of the node value.
- The text of the panic message: the failure carries the kind, and rendering a kind as a word is not modelled.
- The internal encoding of path segments (`PathSegmentOfString`, `PathSegmentOfInt`) and paths: datamodel/pathSegment.go is not part of this model, so a segment is a plain two-case datatype.
- The walk, focus, transform and link-resolution algorithms and link-depth limiting: their source is not part of this model.
- `vendor/github.com/ipfs/go-ipfs/core/commands/crazytest.go`: a CLI command handler built on peer dialling, peerstore and key lookups, base64 and JSON output; its placeholder expansion is a chain of string replacements on output formatting.
