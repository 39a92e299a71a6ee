/*
 * components/script_bindings/impls.rs: conversions between the DOM's
 * WebIDL enums and the network / WebGPU types, the feature-name lookup, the
 * event-listener option unions, and the tracers of the HTML and XML parsers.
 *
 * DOM enums keep the names the WebIDL code generator gives them
 * (`No_store`, `Same_origin`, …); `_empty` is `Empty` here.  A `panic!` or
 * `unreachable!` is an `Err` carrying its message.
 */
module Impls {
  import opened Wrappers
  import opened Trace

  /* ---- RequestCache ---- */

  datatype RequestCache = Default | No_store | Reload | No_cache | Force_cache | Only_if_cached
  datatype NetRequestCache = Default | NoStore | Reload | NoCache | ForceCache | OnlyIfCached

  function CacheToNet(cache: RequestCache): NetRequestCache
  {
    match cache
    case Default => NetRequestCache.Default
    case No_store => NetRequestCache.NoStore
    case Reload => NetRequestCache.Reload
    case No_cache => NetRequestCache.NoCache
    case Force_cache => NetRequestCache.ForceCache
    case Only_if_cached => NetRequestCache.OnlyIfCached
  }

  function CacheFromNet(cache: NetRequestCache): RequestCache
  {
    match cache
    case Default => RequestCache.Default
    case NoStore => RequestCache.No_store
    case Reload => RequestCache.Reload
    case NoCache => RequestCache.No_cache
    case ForceCache => RequestCache.Force_cache
    case OnlyIfCached => RequestCache.Only_if_cached
  }

  /** The two `From` impls for the cache mode are inverse bijections. */
  lemma CacheRoundTrips(dom: RequestCache, net: NetRequestCache)
    ensures CacheFromNet(CacheToNet(dom)) == dom
    ensures CacheToNet(CacheFromNet(net)) == net
  {
  }

  /* ---- RequestCredentials ---- */

  datatype RequestCredentials = Omit | Same_origin | Include
  datatype NetRequestCredentials = Omit | CredentialsSameOrigin | Include

  function CredentialsToNet(credentials: RequestCredentials): NetRequestCredentials
  {
    match credentials
    case Omit => NetRequestCredentials.Omit
    case Same_origin => NetRequestCredentials.CredentialsSameOrigin
    case Include => NetRequestCredentials.Include
  }

  function CredentialsFromNet(credentials: NetRequestCredentials): RequestCredentials
  {
    match credentials
    case Omit => RequestCredentials.Omit
    case CredentialsSameOrigin => RequestCredentials.Same_origin
    case Include => RequestCredentials.Include
  }

  lemma CredentialsRoundTrip(dom: RequestCredentials, net: NetRequestCredentials)
    ensures CredentialsFromNet(CredentialsToNet(dom)) == dom
    ensures CredentialsToNet(CredentialsFromNet(net)) == net
  {
  }

  /* ---- RequestDestination ---- */

  datatype RequestDestination =
    | Empty | Audio | Document | Embed | Font | Frame | Iframe | Image | Manifest | Json
    | Object | Report | Script | Sharedworker | Style | Track | Video | Worker | Xslt

  datatype NetRequestDestination =
    | None | Audio | AudioWorklet | Document | Embed | Font | Frame | IFrame | Image
    | Json | Manifest | Object | PaintWorklet | Report | Script | ServiceWorker
    | SharedWorker | Style | Track | Video | WebIdentity | Worker | Xslt

  function DestinationToNet(destination: RequestDestination): NetRequestDestination
  {
    match destination
    case Empty => NetRequestDestination.None
    case Audio => NetRequestDestination.Audio
    case Document => NetRequestDestination.Document
    case Embed => NetRequestDestination.Embed
    case Font => NetRequestDestination.Font
    case Frame => NetRequestDestination.Frame
    case Iframe => NetRequestDestination.IFrame
    case Image => NetRequestDestination.Image
    case Manifest => NetRequestDestination.Manifest
    case Json => NetRequestDestination.Json
    case Object => NetRequestDestination.Object
    case Report => NetRequestDestination.Report
    case Script => NetRequestDestination.Script
    case Sharedworker => NetRequestDestination.SharedWorker
    case Style => NetRequestDestination.Style
    case Track => NetRequestDestination.Track
    case Video => NetRequestDestination.Video
    case Worker => NetRequestDestination.Worker
    case Xslt => NetRequestDestination.Xslt
  }

  const WorkerDestinationPanic := "ServiceWorker request destination should not be exposed to DOM"

  function DestinationFromNet(destination: NetRequestDestination): Result<RequestDestination, string>
  {
    match destination
    case None => Ok(RequestDestination.Empty)
    case Audio => Ok(RequestDestination.Audio)
    case Document => Ok(RequestDestination.Document)
    case Embed => Ok(RequestDestination.Embed)
    case Font => Ok(RequestDestination.Font)
    case Frame => Ok(RequestDestination.Frame)
    case IFrame => Ok(RequestDestination.Iframe)
    case Image => Ok(RequestDestination.Image)
    case Manifest => Ok(RequestDestination.Manifest)
    case Json => Ok(RequestDestination.Json)
    case Object => Ok(RequestDestination.Object)
    case Report => Ok(RequestDestination.Report)
    case Script => Ok(RequestDestination.Script)
    case ServiceWorker => Err(WorkerDestinationPanic)
    case AudioWorklet => Err(WorkerDestinationPanic)
    case PaintWorklet => Err(WorkerDestinationPanic)
    case SharedWorker => Ok(RequestDestination.Sharedworker)
    case Style => Ok(RequestDestination.Style)
    case Track => Ok(RequestDestination.Track)
    case Video => Ok(RequestDestination.Video)
    case Worker => Ok(RequestDestination.Worker)
    case Xslt => Ok(RequestDestination.Xslt)
    case WebIdentity => Ok(RequestDestination.Empty)
  }

  /**
   * DOM → net → DOM is the identity; net → DOM panics exactly on the three
   * worker-only destinations; WebIdentity collapses to `_empty`, and every
   * other net destination comes back unchanged.
   */
  lemma DestinationConversions(dom: RequestDestination, net: NetRequestDestination)
    ensures DestinationFromNet(DestinationToNet(dom)) == Ok(dom)
    ensures DestinationFromNet(net).Err? <==> net in {NetRequestDestination.ServiceWorker, NetRequestDestination.AudioWorklet, NetRequestDestination.PaintWorklet}
    ensures DestinationFromNet(NetRequestDestination.WebIdentity) == Ok(RequestDestination.Empty)
    ensures DestinationFromNet(net).Ok? && net != NetRequestDestination.WebIdentity ==> DestinationToNet(DestinationFromNet(net).value) == net
  {
  }

  /* ---- RequestMode ---- */

  datatype RequestMode = Navigate | Same_origin | No_cors | Cors
  datatype NetRequestMode = Navigate | SameOrigin | NoCors | CorsMode | WebSocket(protocols: seq<string>, originalUrl: string)

  function ModeToNet(mode: RequestMode): NetRequestMode
  {
    match mode
    case Navigate => NetRequestMode.Navigate
    case Same_origin => NetRequestMode.SameOrigin
    case No_cors => NetRequestMode.NoCors
    case Cors => NetRequestMode.CorsMode
  }

  const WebSocketModePanic := "Websocket request mode should never be exposed to Dom"

  function ModeFromNet(mode: NetRequestMode): Result<RequestMode, string>
  {
    match mode
    case Navigate => Ok(RequestMode.Navigate)
    case SameOrigin => Ok(RequestMode.Same_origin)
    case NoCors => Ok(RequestMode.No_cors)
    case CorsMode => Ok(RequestMode.Cors)
    case WebSocket(_, _) => Err(WebSocketModePanic)
  }

  lemma ModeConversions(dom: RequestMode, net: NetRequestMode)
    ensures ModeFromNet(ModeToNet(dom)) == Ok(dom)
    ensures ModeFromNet(net).Err? <==> net.WebSocket?
    ensures ModeFromNet(net).Ok? ==> ModeToNet(ModeFromNet(net).value) == net
  {
  }

  /* ---- ReferrerPolicy ---- */

  datatype ReferrerPolicy =
    | Empty | No_referrer | No_referrer_when_downgrade | Origin | Origin_when_cross_origin
    | Unsafe_url | Same_origin | Strict_origin | Strict_origin_when_cross_origin

  datatype MsgReferrerPolicy =
    | NoReferrer | NoReferrerWhenDowngrade | Origin | OriginWhenCrossOrigin
    | UnsafeUrl | SameOrigin | StrictOrigin | StrictOriginWhenCrossOrigin

  function PolicyToMsg(policy: ReferrerPolicy): MsgReferrerPolicy
  {
    match policy
    case Empty => MsgReferrerPolicy.NoReferrer
    case No_referrer => MsgReferrerPolicy.NoReferrer
    case No_referrer_when_downgrade => MsgReferrerPolicy.NoReferrerWhenDowngrade
    case Origin => MsgReferrerPolicy.Origin
    case Origin_when_cross_origin => MsgReferrerPolicy.OriginWhenCrossOrigin
    case Unsafe_url => MsgReferrerPolicy.UnsafeUrl
    case Same_origin => MsgReferrerPolicy.SameOrigin
    case Strict_origin => MsgReferrerPolicy.StrictOrigin
    case Strict_origin_when_cross_origin => MsgReferrerPolicy.StrictOriginWhenCrossOrigin
  }

  function PolicyFromMsg(policy: MsgReferrerPolicy): ReferrerPolicy
  {
    match policy
    case NoReferrer => ReferrerPolicy.No_referrer
    case NoReferrerWhenDowngrade => ReferrerPolicy.No_referrer_when_downgrade
    case Origin => ReferrerPolicy.Origin
    case OriginWhenCrossOrigin => ReferrerPolicy.Origin_when_cross_origin
    case UnsafeUrl => ReferrerPolicy.Unsafe_url
    case SameOrigin => ReferrerPolicy.Same_origin
    case StrictOrigin => ReferrerPolicy.Strict_origin
    case StrictOriginWhenCrossOrigin => ReferrerPolicy.Strict_origin_when_cross_origin
  }

  /**
   * net → DOM → net is the identity; DOM → net → DOM is the identity except
   * that `_empty` comes back as `No_referrer`, the only two DOM policies that
   * share a net policy.
   */
  lemma PolicyConversions(dom: ReferrerPolicy, msg: MsgReferrerPolicy)
    ensures PolicyToMsg(PolicyFromMsg(msg)) == msg
    ensures PolicyFromMsg(PolicyToMsg(dom)) == if dom == ReferrerPolicy.Empty then ReferrerPolicy.No_referrer else dom
    ensures forall other: ReferrerPolicy :: PolicyToMsg(other) == PolicyToMsg(dom) && other != dom ==>
              {other, dom} == {ReferrerPolicy.Empty, ReferrerPolicy.No_referrer}
  {
  }

  /* ---- RequestRedirect ---- */

  datatype RequestRedirect = Follow | Error | Manual
  datatype NetRequestRedirect = Follow | Error | Manual

  function RedirectToNet(redirect: RequestRedirect): NetRequestRedirect
  {
    match redirect
    case Follow => NetRequestRedirect.Follow
    case Error => NetRequestRedirect.Error
    case Manual => NetRequestRedirect.Manual
  }

  function RedirectFromNet(redirect: NetRequestRedirect): RequestRedirect
  {
    match redirect
    case Follow => RequestRedirect.Follow
    case Error => RequestRedirect.Error
    case Manual => RequestRedirect.Manual
  }

  lemma RedirectRoundTrip(dom: RequestRedirect, net: NetRequestRedirect)
    ensures RedirectFromNet(RedirectToNet(dom)) == dom
    ensures RedirectToNet(RedirectFromNet(net)) == net
  {
  }

  /* ---- Event-listener option unions ---- */

  datatype EventListenerOptions = EventListenerOptions(capture: bool)
  datatype AddEventListenerOptions = AddEventListenerOptions(parent: EventListenerOptions, once: bool)
  datatype AddEventListenerOptionsOrBoolean = AddOptions(addOptions: AddEventListenerOptions) | AddBoolean(addCapture: bool)
  datatype EventListenerOptionsOrBoolean = Options(options: EventListenerOptions) | Boolean(capture: bool)

  function AddOptionsFrom(options: AddEventListenerOptionsOrBoolean): AddEventListenerOptions
  {
    match options
    case AddOptions(o) => o
    case AddBoolean(capture) => AddEventListenerOptions(EventListenerOptions(capture), false)
  }

  function OptionsFrom(options: EventListenerOptionsOrBoolean): EventListenerOptions
  {
    match options
    case Options(o) => o
    case Boolean(capture) => EventListenerOptions(capture)
  }

  /**
   * A bare boolean is the capture flag with `once` false, and both unions
   * read the same boolean as the same capture flag; a dictionary passes through.
   */
  lemma EventOptionsAgree(capture: bool, add: AddEventListenerOptions, plain: EventListenerOptions)
    ensures AddOptionsFrom(AddBoolean(capture)).parent == OptionsFrom(Boolean(capture))
    ensures AddOptionsFrom(AddBoolean(capture)).parent.capture == capture && !AddOptionsFrom(AddBoolean(capture)).once
    ensures AddOptionsFrom(AddOptions(add)) == add && OptionsFrom(Options(plain)) == plain
  {
  }

  /* ---- GPUErrorFilter ---- */

  datatype ErrorFilter = Validation | OutOfMemory | Internal
  datatype GPUErrorFilter = Validation | Out_of_memory | Internal

  function FilterFromWebgpu(filter: ErrorFilter): GPUErrorFilter
  {
    match filter
    case Validation => GPUErrorFilter.Validation
    case OutOfMemory => GPUErrorFilter.Out_of_memory
    case Internal => GPUErrorFilter.Internal
  }

  /** `GPUErrorFilter::as_webgpu`. */
  function AsWebgpu(filter: GPUErrorFilter): ErrorFilter
  {
    match filter
    case Validation => ErrorFilter.Validation
    case Out_of_memory => ErrorFilter.OutOfMemory
    case Internal => ErrorFilter.Internal
  }

  lemma AsWebgpuInvertsFrom(filter: ErrorFilter, dom: GPUErrorFilter)
    ensures AsWebgpu(FilterFromWebgpu(filter)) == filter
    ensures FilterFromWebgpu(AsWebgpu(dom)) == dom
  {
  }

  /* ---- GPUFeatureName::from_str ---- */

  /** Index `i` holds the first pair whose key is `s`. */
  predicate FirstMatch<V>(pairs: seq<(string, V)>, s: string, i: int)
  {
    0 <= i < |pairs| && pairs[i].0 == s && forall j :: 0 <= j < i ==> pairs[j].0 != s
  }

  /**
   * `pairs.iter().find(|(key, _)| s == key).map(|(_, v)| v).ok_or(())`, for
   * any table of (name, value) pairs: the value of the first pair whose key
   * is `s`, or `Err(())` when no key is.
   */
  function FeatureFromStr<V>(pairs: seq<(string, V)>, s: string): (r: Result<V, ()>)
    ensures r.Err? <==> forall i :: 0 <= i < |pairs| ==> pairs[i].0 != s
    ensures r.Ok? ==> exists i :: FirstMatch(pairs, s, i) && r.value == pairs[i].1
    decreases |pairs|
  {
    if pairs == [] then Err(())
    else if pairs[0].0 == s then Ok(pairs[0].1)
    else
      var rest := FeatureFromStr(pairs[1..], s);
      assert rest.Ok? ==> exists i :: FirstMatch(pairs, s, i) && rest.value == pairs[i].1 by {
        if rest.Ok? {
          var k :| 0 <= k < |pairs[1..]| && pairs[1..][k].0 == s && rest.value == pairs[1..][k].1 &&
                   forall j :: 0 <= j < k ==> pairs[1..][j].0 != s;
          assert pairs[k + 1] == pairs[1..][k];
          forall j | 0 <= j < k + 1 ensures pairs[j].0 != s {
            if j > 0 { assert pairs[j] == pairs[1..][j - 1]; }
          }
          assert FirstMatch(pairs, s, k + 1);
        }
      }
      rest
  }

  /* ---- Parser tracers (CustomTraceable) ---- */

  /**
   * An html5ever / xml5ever tree builder: the node handles `trace_handles`
   * hands to the tracer, in the order the parser library visits them, and
   * the sink.
   */
  datatype TreeBuilder = TreeBuilder(handles: seq<Traceable>, sink: Traceable)

  /** A tokenizer whose sink is a tree builder. */
  datatype Tokenizer = Tokenizer(sink: TreeBuilder)

  /** `CustomTraceable for TreeBuilder`: every handle, then the sink. */
  function TreeBuilderEdges(builder: TreeBuilder): (r: seq<Edge>)
    ensures r == EdgesOfAll(builder.handles + [builder.sink])
    ensures forall i :: 0 <= i < |builder.handles| ==> multiset(Edges(builder.handles[i])) <= multiset(r)
    ensures multiset(Edges(builder.sink)) <= multiset(r)
  {
    EdgesOfAllAppend(builder.handles, [builder.sink]);
    assert EdgesOfAll([builder.sink]) == Edges(builder.sink);
    forall i | 0 <= i < |builder.handles|
      ensures multiset(Edges(builder.handles[i])) <= multiset(EdgesOfAll(builder.handles))
    {
      ElementEdgesIncluded(builder.handles, i);
    }
    EdgesOfAll(builder.handles) + Edges(builder.sink)
  }

  /** `CustomTraceable for Tokenizer`: only the sink, through the tree builder's own trace. */
  function TokenizerEdges(tokenizer: Tokenizer): seq<Edge>
  {
    TreeBuilderEdges(tokenizer.sink)
  }

  /** `CustomTraceable for XmlTokenizer`: the tree builder's handles, then its sink, spelled out inline. */
  function XmlTokenizerEdges(tokenizer: Tokenizer): seq<Edge>
  {
    var builder := tokenizer.sink;
    EdgesOfAll(builder.handles) + Edges(builder.sink)
  }

  /** Both tokenizers record exactly what their tree builder's trace records. */
  lemma TokenizersTraceTheirTreeBuilder(tokenizer: Tokenizer)
    ensures TokenizerEdges(tokenizer) == XmlTokenizerEdges(tokenizer) == TreeBuilderEdges(tokenizer.sink)
  {
  }
}
