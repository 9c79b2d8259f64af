/**
 The two builders of one client configuration: the Android template filled in and rewritten
 (tools/render-configs.mjs, templates/android-socks.json) and the direct one (src/node/clientconf.js).
 */
module ClientConfig {
  import opened Jsons
  import opened Names
  import opened Options
  import opened Templates

  /** Domain fronting: the name on the wire, and the pinned fingerprint or "". */
  datatype Front = Front(sni: string, pin: string)

  datatype Args = Args(uuid: string, host: string, wsPath: string, policy: string, ca: seq<string>,
                       front: Option<Front>)

  // ----- the template -----

  const TEMPLATE_RULES: seq<Json> := [
    Obj([Field("network", Str("tcp,udp")), Field("port", Str("53")), Field("outboundTag", Str("vless"))]),
    Obj([Field("network", Str("udp")), Field("port", Str("443")), Field("outboundTag", Str("${QUIC_OUTBOUND}"))]),
    Obj([Field("network", Str("udp")), Field("outboundTag", Str("${UDP_OUTBOUND}"))])]

  const TEMPLATE_INBOUND: Json := Obj([
    Field("tag", Str("socks-in")), Field("listen", Str("127.0.0.1")), Field("port", Num(10808)),
      Field("protocol", Str("socks")),
    Field("settings", Obj([Field("auth", Str("noauth")), Field("udp", Bool(true))])),
    Field("sniffing", Obj([Field("enabled", Bool(true)), Field("destOverride", Arr([Str("http"), Str("tls")]))]))])

  const TEMPLATE_SERVER: Json := Obj([
    Field("address", Str("${HOST}")), Field("port", Num(443)),
    Field("users", Arr([Obj([Field("id", Str("${UUID}")), Field("encryption", Str("none"))])]))])

  const TEMPLATE_TLS: Json := Obj([
    Field("serverName", Str("${HOST}")),
    Field("certificates", Arr([Obj([Field("usage", Str("verify")),
        Field("certificate", Arr([Str("${CA_PEM_LINES}")]))])]))])

  const TEMPLATE_STREAM: Json := Obj([
    Field("network", Str("ws")), Field("security", Str("tls")), Field("tlsSettings", TEMPLATE_TLS),
    Field("wsSettings", Obj([Field("path", Str("${WSPATH}")), Field("host", Str("${HOST}"))])),
    Field("sockopt", Obj([Field("domainStrategy", Str("UseIPv4"))]))])

  const TEMPLATE_MUX: Json := Obj([
    Field("enabled", Bool(true)), Field("concurrency", Num(8)), Field("xudpConcurrency", Num(1024)),
    Field("xudpProxyUDP443", Str("${XUDP_443}"))])

  const TEMPLATE_VLESS: Json := Obj([
    Field("tag", Str("vless")), Field("protocol", Str("vless")),
    Field("settings", Obj([Field("vnext", Arr([TEMPLATE_SERVER]))])),
    Field("streamSettings", TEMPLATE_STREAM), Field("mux", TEMPLATE_MUX)])

  const TEMPLATE_BLOCK: Json := Obj([Field("tag", Str("block")), Field("protocol", Str("blackhole"))])

  /** templates/android-socks.json */
  const ANDROID_SOCKS: Json := Obj([
    Field("routing", Obj([Field("rules", Arr(TEMPLATE_RULES))])),
    Field("inbounds", Arr([TEMPLATE_INBOUND])),
    Field("outbounds", Arr([TEMPLATE_VLESS, TEMPLATE_BLOCK]))])

  // ----- rendering -----

  function Bindings(a: Args): map<string, Binding> {
    map[
      "UUID" := Value(a.uuid), "WSPATH" := Value(a.wsPath), "HOST" := Value(a.host),
      "UDP_OUTBOUND" := Value(if a.policy == "none" then "block" else "vless"),
      "QUIC_OUTBOUND" := Value(if a.policy == "noquic" then "block" else ""),
      "XUDP_443" := Value(if a.policy == "all" then "allow" else "reject"),
      "CA_PEM_LINES" := Lines(a.ca)]
  }

  predicate Falsy(v: Option<Json>) {
    v.None? || v.value in {Null, Bool(false), Num(0), Str("")}
  }

  predicate IsBlankQuic(rule: Json) {
    && Get(rule, "network") == Some(Str("udp")) && Get(rule, "port") == Some(Str("443"))
    && Falsy(Get(rule, "outboundTag"))
  }

  /** Without the first rule for UDP port 443 that names no outbound. */
  function WithoutBlank(rules: seq<Json>): seq<Json> {
    if rules == [] then []
    else if IsBlankQuic(rules[0]) then rules[1..]
    else [rules[0]] + WithoutBlank(rules[1..])
  }

  function DropBlankQuicRule(config: Json): Json {
    var routing := Get(config, "routing");
    if routing.None? then config else
    var rules := Get(routing.value, "rules");
    if rules.None? || !rules.value.Arr? then config
    else Set(config, "routing", Set(routing.value, "rules", Arr(WithoutBlank(rules.value.items))))
  }

  datatype TlsEdit = DropEmptyCertificates | ApplyFronting(front: Front)

  function Length(v: Json): Option<nat> {
    match v
    case Arr(items) => Some(|items|)
    case Str(s) => Some(|s|)
    case _ => None
  }

  predicate HasEmptyCertificate(tls: Json) {
    var certificates := Get(tls, "certificates");
    && certificates.Some? && First(certificates.value).Some?
    && var certificate := Get(First(certificates.value).value, "certificate");
       certificate.Some? && Length(certificate.value) == Some(0)
  }

  function EditTls(tls: Json, edit: TlsEdit): Json {
    match edit
    case DropEmptyCertificates => if HasEmptyCertificate(tls) then Delete(tls, "certificates") else tls
    case ApplyFronting(front) =>
      var spoofed := Set(tls, "serverName", Str(front.sni));
      if front.pin == "" then spoofed
      else Set(Delete(spoofed, "certificates"), "pinnedPeerCertSha256", Str(front.pin))
  }

  function EditStream(stream: Json, edit: TlsEdit): Option<Json> {
    match Get(stream, "tlsSettings")
    case None => None
    case Some(tls) => Some(Set(stream, "tlsSettings", EditTls(tls, edit)))
  }

  function EditOutbound(outbound: Json, edit: TlsEdit): Option<Json> {
    match Get(outbound, "streamSettings")
    case None => None
    case Some(stream) =>
      match EditStream(stream, edit)
      case None => None
      case Some(edited) => Some(Set(outbound, "streamSettings", edited))
  }

  /** Edit the TLS settings of the first outbound; None where there are none. */
  function EditConfig(config: Json, edit: TlsEdit): Option<Json> {
    match Get(config, "outbounds")
    case None => None
    case Some(outbounds) =>
      if First(outbounds).None? then None else
      match EditOutbound(outbounds.items[0], edit)
      case None => None
      case Some(edited) => Some(Set(config, "outbounds", Arr([edited] + outbounds.items[1..])))
  }

  /** `Threw` is fronting a template without TLS settings; a blank certificate that is not there is not dropped. */
  datatype Rendering = Failed(issues: seq<Issue>) | Threw | Rendered(config: Json)

  function Render(template: Json, a: Args): Rendering {
    var (filled, issues) := Substitute(template, Bindings(a), "$");
    if issues != [] then Failed(issues) else
    var config := DropBlankQuicRule(filled);
    match a.front
    case None => Rendered(EditConfig(config, DropEmptyCertificates).GetOr(config))
    case Some(front) =>
      match EditConfig(config, ApplyFronting(front))
      case None => Threw
      case Some(fronted) => Rendered(fronted)
  }

  // ----- building -----

  function BuildRules(policy: string): seq<Json> {
    [Obj([Field("network", Str("tcp,udp")), Field("port", Str("53")), Field("outboundTag", Str("vless"))])]
    + (if policy == "noquic"
       then [Obj([Field("network", Str("udp")), Field("port", Str("443")), Field("outboundTag", Str("block"))])]
       else [])
    + [Obj([Field("network", Str("udp")),
            Field("outboundTag", Str(if policy == "noquic" || policy == "all" then "vless" else "block"))])]
  }

  /** Absent fronting arguments are "". */
  function BuildTls(host: string, pem: seq<string>, frontSni: string, pin: string): Json {
    var sni := if frontSni != "" then frontSni else host;
    if frontSni != "" && pin != "" then
      Obj([Field("serverName", Str(sni)), Field("pinnedPeerCertSha256", Str(pin))])
    else if pem != [] then
      Obj([Field("serverName", Str(sni)),
           Field("certificates", Arr([Obj([Field("usage", Str("verify")), Field("certificate", Arr(Strings(pem)))])]))])
    else
      Obj([Field("serverName", Str(sni))])
  }

  function BuildXrayConfig(uuid: string, host: string, port: nat, wsPath: string, policy: string,
                           pem: seq<string>, frontSni: string, pin: string): Json {
    Obj([
      Field("routing", Obj([Field("rules", Arr(BuildRules(policy)))])),
      Field("inbounds", Arr([Obj([
        Field("tag", Str("socks-in")), Field("listen", Str("127.0.0.1")), Field("port", Num(10808)),
          Field("protocol", Str("socks")),
        Field("settings", Obj([Field("auth", Str("noauth")), Field("udp", Bool(true))])),
        Field("sniffing", Obj([Field("enabled", Bool(true)),
            Field("destOverride", Arr([Str("http"), Str("tls")]))]))])])),
      Field("outbounds", Arr([
        Obj([
          Field("tag", Str("vless")), Field("protocol", Str("vless")),
          Field("settings", Obj([Field("vnext", Arr([Obj([
            Field("address", Str(host)), Field("port", Num(port)),
            Field("users", Arr([Obj([Field("id", Str(uuid)), Field("encryption", Str("none"))])]))])]))])),
          Field("streamSettings", Obj([
            Field("network", Str("ws")), Field("security", Str("tls")),
            Field("tlsSettings", BuildTls(host, pem, frontSni, pin)),
            Field("wsSettings", Obj([Field("path", Str(wsPath)), Field("host", Str(host))])),
            Field("sockopt", Obj([Field("domainStrategy", Str("UseIPv4"))]))])),
          Field("mux", Obj([
            Field("enabled", Bool(true)), Field("concurrency", Num(8)), Field("xudpConcurrency", Num(1024)),
            Field("xudpProxyUDP443", Str(if policy == "all" then "allow" else "reject"))]))]),
        Obj([Field("tag", Str("block")), Field("protocol", Str("blackhole"))])]))])
  }

  /** The builder's answer to what the renderer was asked. */
  function Build(a: Args): Json {
    var front := a.front.GetOr(Front("", ""));
    BuildXrayConfig(a.uuid, a.host, 443, a.wsPath, a.policy, a.ca, front.sni, front.pin)
  }

  // ----- the shape both produce -----

  ghost function StreamShape(tls: Json, a: Args): Json {
    Obj([
      Field("network", Str("ws")), Field("security", Str("tls")), Field("tlsSettings", tls),
      Field("wsSettings", Obj([Field("path", Str(a.wsPath)), Field("host", Str(a.host))])),
      Field("sockopt", Obj([Field("domainStrategy", Str("UseIPv4"))]))])
  }

  ghost function ServerShape(a: Args): Json {
    Obj([
      Field("address", Str(a.host)), Field("port", Num(443)),
      Field("users", Arr([Obj([Field("id", Str(a.uuid)), Field("encryption", Str("none"))])]))])
  }

  ghost function MuxShape(a: Args): Json {
    Obj([
      Field("enabled", Bool(true)), Field("concurrency", Num(8)), Field("xudpConcurrency", Num(1024)),
      Field("xudpProxyUDP443", Str(if a.policy == "all" then "allow" else "reject"))])
  }

  ghost function OutboundShape(tls: Json, a: Args): Json {
    Obj([
      Field("tag", Str("vless")), Field("protocol", Str("vless")),
      Field("settings", Obj([Field("vnext", Arr([ServerShape(a)]))])),
      Field("streamSettings", StreamShape(tls, a)), Field("mux", MuxShape(a))])
  }

  /** A configuration around its routing rules and its TLS settings. */
  ghost function Shape(rules: seq<Json>, tls: Json, a: Args): Json {
    Obj([
      Field("routing", Obj([Field("rules", Arr(rules))])),
      Field("inbounds", Arr([TEMPLATE_INBOUND])),
      Field("outbounds", Arr([OutboundShape(tls, a), TEMPLATE_BLOCK]))])
  }

  lemma ShapeIsInjective(rules: seq<Json>, tls: Json, rules': seq<Json>, tls': Json, a: Args)
    ensures Shape(rules, tls, a) == Shape(rules', tls', a) <==> rules == rules' && tls == tls'
  {
    if Shape(rules, tls, a) == Shape(rules', tls', a) {
      var f, f' := Shape(rules, tls, a).fields, Shape(rules', tls', a).fields;
      assert f[0].value.fields[0].value == f'[0].value.fields[0].value;
      var o, o' := f[2].value.items[0], f'[2].value.items[0];
      assert o.fields[3].value == o'.fields[3].value;
      assert o.fields[3].value.fields[2].value == o'.fields[3].value.fields[2].value;
    }
  }

  lemma BuildHasShape(a: Args)
    ensures var front := a.front.GetOr(Front("", ""));
            Build(a) == Shape(BuildRules(a.policy), BuildTls(a.host, a.ca, front.sni, front.pin), a)
  {
    hide BuildRules, BuildTls;
  }

  // ----- the template, filled -----

  ghost function FilledRules(policy: string): seq<Json> {
    [Obj([Field("network", Str("tcp,udp")), Field("port", Str("53")), Field("outboundTag", Str("vless"))]),
     Obj([Field("network", Str("udp")), Field("port", Str("443")),
          Field("outboundTag", Str(if policy == "noquic" then "block" else ""))]),
     Obj([Field("network", Str("udp")), Field("outboundTag", Str(if policy == "none" then "block" else "vless"))])]
  }

  ghost function FilledTls(a: Args): Json {
    Obj([
      Field("serverName", Str(a.host)),
      Field("certificates", Arr([Obj([Field("usage", Str("verify")), Field("certificate", Arr(Strings(a.ca)))])]))])
  }

  lemma Named(name: string)
    requires name in {"UUID", "WSPATH", "HOST", "UDP_OUTBOUND", "QUIC_OUTBOUND", "XUDP_443", "CA_PEM_LINES"}
    ensures IsName(name)
  {
  }

  lemma HoleFilled(name: string, hole: string, a: Args)
    requires name in {"UUID", "WSPATH", "HOST", "UDP_OUTBOUND", "QUIC_OUTBOUND", "XUDP_443"}
    requires hole == "${" + name + "}"
    ensures Becomes(Str(hole), Bindings(a), Str(Bindings(a)[name].text))
  {
    Named(name);
    hide IsName, Becomes;
    TextBecomes(name, Bindings(a));
  }

  lemma HoleIsHost(a: Args)
    ensures Becomes(Str("${HOST}"), Bindings(a), Str(a.host))
  {
    assert "${HOST}" == "${" + "HOST" + "}";
    HoleFilled("HOST", "${HOST}", a);
  }

  lemma HoleIsUuid(a: Args)
    ensures Becomes(Str("${UUID}"), Bindings(a), Str(a.uuid))
  {
    assert "${UUID}" == "${" + "UUID" + "}";
    HoleFilled("UUID", "${UUID}", a);
  }

  lemma HoleIsPath(a: Args)
    ensures Becomes(Str("${WSPATH}"), Bindings(a), Str(a.wsPath))
  {
    assert "${WSPATH}" == "${" + "WSPATH" + "}";
    HoleFilled("WSPATH", "${WSPATH}", a);
  }

  lemma HolesFollowPolicy(a: Args)
    ensures Becomes(Str("${QUIC_OUTBOUND}"), Bindings(a), Str(if a.policy == "noquic" then "block" else ""))
    ensures Becomes(Str("${UDP_OUTBOUND}"), Bindings(a), Str(if a.policy == "none" then "block" else "vless"))
    ensures Becomes(Str("${XUDP_443}"), Bindings(a), Str(if a.policy == "all" then "allow" else "reject"))
  {
    assert "${QUIC_OUTBOUND}" == "${" + "QUIC_OUTBOUND" + "}";
    assert "${UDP_OUTBOUND}" == "${" + "UDP_OUTBOUND" + "}";
    assert "${XUDP_443}" == "${" + "XUDP_443" + "}";
    hide Becomes;
    HoleFilled("QUIC_OUTBOUND", "${QUIC_OUTBOUND}", a);
    HoleFilled("UDP_OUTBOUND", "${UDP_OUTBOUND}", a);
    HoleFilled("XUDP_443", "${XUDP_443}", a);
  }

  lemma DnsRuleFilled(b: map<string, Binding>)
    ensures Becomes(TEMPLATE_RULES[0], b, TEMPLATE_RULES[0])
  {
    hide Becomes, Substitute, Splice;
    PlainBecomes(TEMPLATE_RULES[0], b);
  }

  lemma QuicRuleFilled(a: Args)
    ensures Becomes(TEMPLATE_RULES[1], Bindings(a), FilledRules(a.policy)[1])
  {
    var b := Bindings(a);
    hide Becomes, Substitute, Splice, Bindings;
    LiteralBecomes("udp", b);
    LiteralBecomes("443", b);
    HolesFollowPolicy(a);
    ObjectBecomes(TEMPLATE_RULES[1].fields, b, FilledRules(a.policy)[1].fields);
  }

  lemma UdpRuleFilled(a: Args)
    ensures Becomes(TEMPLATE_RULES[2], Bindings(a), FilledRules(a.policy)[2])
  {
    var b := Bindings(a);
    hide Becomes, Substitute, Splice, Bindings;
    LiteralBecomes("udp", b);
    HolesFollowPolicy(a);
    ObjectBecomes(TEMPLATE_RULES[2].fields, b, FilledRules(a.policy)[2].fields);
  }

  lemma RulesFilled(a: Args)
    ensures Becomes(Arr(TEMPLATE_RULES), Bindings(a), Arr(FilledRules(a.policy)))
  {
    var b, filled := Bindings(a), FilledRules(a.policy);
    hide Becomes, Substitute, Bindings;
    DnsRuleFilled(b);
    QuicRuleFilled(a);
    UdpRuleFilled(a);
    ArrayBecomes(TEMPLATE_RULES, b, filled);
  }

  lemma ServerFilled(a: Args)
    ensures Becomes(TEMPLATE_SERVER, Bindings(a), ServerShape(a))
  {
    var b := Bindings(a);
    hide Becomes, Substitute, Bindings;
    HoleIsUuid(a);
    HoleIsHost(a);
    LiteralBecomes("none", b);
    var user, user' := TEMPLATE_SERVER.fields[2].value.items[0], ServerShape(a).fields[2].value.items[0];
    ObjectBecomes(user.fields, b, user'.fields);
    ArrayBecomes([user], b, [user']);
    PlainBecomes(Num(443), b);
    ObjectBecomes(TEMPLATE_SERVER.fields, b, ServerShape(a).fields);
  }

  lemma TlsFilled(a: Args)
    ensures Becomes(TEMPLATE_TLS, Bindings(a), FilledTls(a))
  {
    var b := Bindings(a);
    HoleIsHost(a);
    LiteralBecomes("verify", b);
    assert "${CA_PEM_LINES}" == "${" + "CA_PEM_LINES" + "}";
    Named("CA_PEM_LINES");
    ListBecomes("CA_PEM_LINES", b);
    assert Becomes(Arr([Str("${CA_PEM_LINES}")]), b, Arr(Strings(a.ca)));
    hide Becomes, Substitute, Bindings, Strings, IsName;
    var certificate, certificate' := TEMPLATE_TLS.fields[1].value.items[0], FilledTls(a).fields[1].value.items[0];
    ObjectBecomes(certificate.fields, b, certificate'.fields);
    ArrayBecomes([certificate], b, [certificate']);
    ObjectBecomes(TEMPLATE_TLS.fields, b, FilledTls(a).fields);
  }

  lemma StreamFilled(a: Args)
    ensures Becomes(TEMPLATE_STREAM, Bindings(a), StreamShape(FilledTls(a), a))
  {
    var b, shape := Bindings(a), StreamShape(FilledTls(a), a);
    hide Becomes, Substitute, Bindings;
    TlsFilled(a);
    HoleIsHost(a);
    HoleIsPath(a);
    LiteralBecomes("ws", b);
    LiteralBecomes("tls", b);
    ObjectBecomes(TEMPLATE_STREAM.fields[3].value.fields, b, shape.fields[3].value.fields);
    PlainBecomes(TEMPLATE_STREAM.fields[4].value, b);
    hide FilledTls;
    ObjectBecomes(TEMPLATE_STREAM.fields, b, shape.fields);
  }

  lemma MuxFilled(a: Args)
    ensures Becomes(TEMPLATE_MUX, Bindings(a), MuxShape(a))
  {
    var b := Bindings(a);
    hide Becomes, Substitute, Bindings;
    HolesFollowPolicy(a);
    PlainBecomes(Bool(true), b);
    PlainBecomes(Num(8), b);
    PlainBecomes(Num(1024), b);
    ObjectBecomes(TEMPLATE_MUX.fields, b, MuxShape(a).fields);
  }

  lemma OutboundFilled(a: Args)
    ensures Becomes(TEMPLATE_VLESS, Bindings(a), OutboundShape(FilledTls(a), a))
  {
    var b, shape := Bindings(a), OutboundShape(FilledTls(a), a);
    hide Becomes, Substitute, Bindings, FilledTls;
    ServerFilled(a);
    ArrayBecomes([TEMPLATE_SERVER], b, [ServerShape(a)]);
    ObjectBecomes(TEMPLATE_VLESS.fields[2].value.fields, b, shape.fields[2].value.fields);
    StreamFilled(a);
    MuxFilled(a);
    LiteralBecomes("vless", b);
    hide StreamShape, MuxShape, ServerShape;
    ObjectBecomes(TEMPLATE_VLESS.fields, b, shape.fields);
  }

  lemma SniffingIsPlain()
    ensures Plain(TEMPLATE_INBOUND.fields[4].value) && Plain(TEMPLATE_INBOUND.fields[5].value)
  {
    var targets := TEMPLATE_INBOUND.fields[5].value.fields[1].value;
    assert Plain(targets.items[0]) && Plain(targets.items[1]);
    assert Plain(targets);
  }

  lemma InboundIsPlain()
    ensures Plain(TEMPLATE_INBOUND) && Plain(TEMPLATE_BLOCK)
  {
    SniffingIsPlain();
    assert Plain(Str("socks-in")) && Plain(Str("127.0.0.1")) && Plain(Num(10808)) && Plain(Str("socks"));
    assert Plain(TEMPLATE_BLOCK);
    hide Plain;
    ObjectIsPlain(TEMPLATE_INBOUND.fields);
  }

  lemma ObjectIsPlain(fields: seq<Field>)
    requires forall i | 0 <= i < |fields| :: Plain(fields[i].value)
    ensures Plain(Obj(fields))
  {
  }

  /** Every placeholder of the Android template is filled, and nothing else of it changes. */
  lemma TemplateIsFilled(a: Args)
    ensures Substitute(ANDROID_SOCKS, Bindings(a), "$") == (Shape(FilledRules(a.policy), FilledTls(a), a), [])
  {
    var b, shape := Bindings(a), Shape(FilledRules(a.policy), FilledTls(a), a);
    assert Becomes(ANDROID_SOCKS, b, shape) by {
      hide Becomes, Substitute, Bindings, FilledTls, FilledRules;
      RulesFilled(a);
      ObjectBecomes(ANDROID_SOCKS.fields[0].value.fields, b, shape.fields[0].value.fields);
      InboundIsPlain();
      PlainBecomes(TEMPLATE_INBOUND, b);
      PlainBecomes(TEMPLATE_BLOCK, b);
      ArrayBecomes([TEMPLATE_INBOUND], b, [TEMPLATE_INBOUND]);
      OutboundFilled(a);
      ArrayBecomes([TEMPLATE_VLESS, TEMPLATE_BLOCK], b, [OutboundShape(FilledTls(a), a), TEMPLATE_BLOCK]);
      hide OutboundShape, Plain;
      ObjectBecomes(ANDROID_SOCKS.fields, b, shape.fields);
    }
    hide Substitute;
  }

  // ----- the edits -----

  lemma RulesAreTrimmed(rules: seq<Json>, tls: Json, a: Args)
    ensures DropBlankQuicRule(Shape(rules, tls, a)) == Shape(WithoutBlank(rules), tls, a)
  {
    hide WithoutBlank, OutboundShape;
    var config := Shape(rules, tls, a);
    var routing := config.fields[0].value;
    LookupAt(config.fields, 0, "routing");
    LookupAt(routing.fields, 0, "rules");
    var trimmed := Arr(WithoutBlank(rules));
    WithFieldAt(routing.fields, 0, "rules", trimmed);
    assert routing.fields[0 := Field("rules", trimmed)] == [Field("rules", trimmed)];
    var routing' := Set(routing, "rules", trimmed);
    WithFieldAt(config.fields, 0, "routing", routing');
    assert config.fields[0 := Field("routing", routing')] == Shape(WithoutBlank(rules), tls, a).fields;
  }

  lemma TlsIsEdited(rules: seq<Json>, tls: Json, a: Args, edit: TlsEdit)
    ensures EditConfig(Shape(rules, tls, a), edit) == Some(Shape(rules, EditTls(tls, edit), a))
  {
    hide EditTls, ServerShape, MuxShape;
    var config, outbound := Shape(rules, tls, a), OutboundShape(tls, a);
    var edited := EditTls(tls, edit);
    OutboundIsEdited(tls, a, edit);
    hide StreamShape, OutboundShape;
    LookupAt(config.fields, 2, "outbounds");
    var outbounds := [OutboundShape(edited, a), TEMPLATE_BLOCK];
    assert [OutboundShape(edited, a)] + [outbound, TEMPLATE_BLOCK][1..] == outbounds;
    WithFieldAt(config.fields, 2, "outbounds", Arr(outbounds));
    assert config.fields[2 := Field("outbounds", Arr(outbounds))] == Shape(rules, edited, a).fields;
  }

  lemma OutboundIsEdited(tls: Json, a: Args, edit: TlsEdit)
    ensures EditOutbound(OutboundShape(tls, a), edit) == Some(OutboundShape(EditTls(tls, edit), a))
  {
    hide EditTls, ServerShape, MuxShape;
    var stream, outbound := StreamShape(tls, a), OutboundShape(tls, a);
    var edited := EditTls(tls, edit);
    LookupAt(stream.fields, 2, "tlsSettings");
    WithFieldAt(stream.fields, 2, "tlsSettings", edited);
    assert stream.fields[2 := Field("tlsSettings", edited)] == StreamShape(edited, a).fields;
    assert EditStream(stream, edit) == Some(StreamShape(edited, a));
    hide StreamShape, EditStream;
    LookupAt(outbound.fields, 3, "streamSettings");
    WithFieldAt(outbound.fields, 3, "streamSettings", StreamShape(edited, a));
    assert outbound.fields[3 := Field("streamSettings", StreamShape(edited, a))] == OutboundShape(edited, a).fields;
  }

  predicate KnownPolicy(policy: string) {
    policy in {"none", "noquic", "all"}
  }

  lemma BlankOnes(policy: string)
    ensures var rules := FilledRules(policy);
            && !IsBlankQuic(rules[0]) && (IsBlankQuic(rules[1]) <==> policy != "noquic") && !IsBlankQuic(rules[2])
  {
    var rules := FilledRules(policy);
    LookupAt(rules[0].fields, 0, "network");
    assert "tcp,udp" != "udp";
    LookupAt(rules[1].fields, 0, "network");
    LookupAt(rules[1].fields, 1, "port");
    LookupAt(rules[1].fields, 2, "outboundTag");
    LookupNone(rules[2].fields, "port");
  }

  /** Dropping the rule that names no outbound leaves what the builder emits, for the three policies and no others. */
  lemma TrimmedIffKnown(policy: string)
    ensures WithoutBlank(FilledRules(policy)) == BuildRules(policy) <==> KnownPolicy(policy)
  {
    var rules := FilledRules(policy);
    BlankOnes(policy);
    hide IsBlankQuic;
    assert rules[1..][1..] == [rules[2]] && rules[1..][1..][1..] == [];
    assert WithoutBlank([rules[2]]) == [rules[2]];
    assert WithoutBlank(rules[1..]) == if policy == "noquic" then [rules[1]] + [rules[2]] else [rules[2]];
    var trimmed := [rules[0]] + WithoutBlank(rules[1..]);
    assert WithoutBlank(rules) == trimmed;
    var built := BuildRules(policy);
    if policy == "noquic" {
      assert trimmed == [rules[0], rules[1], rules[2]] == built;
    } else {
      assert trimmed == [rules[0], rules[2]] && |built| == 2 && built[0] == rules[0];
      assert trimmed == built <==> rules[2] == built[1];
      assert rules[2] == built[1] <==> rules[2].fields[1] == built[1].fields[1];
    }
  }

  /** Fronting without a pin keeps the certificate block, so it needs a certificate; and a name to show. */
  predicate FrontingAgrees(a: Args) {
    match a.front
    case None => true
    case Some(front) => if front.sni != "" then front.pin != "" || a.ca != []
      else front.pin == "" && a.host == "" && a.ca != []
  }

  ghost function EditOf(front: Option<Front>): TlsEdit {
    if front.Some? then ApplyFronting(front.value) else DropEmptyCertificates
  }

  ghost function Certificates(ca: seq<string>): Field {
    Field("certificates", Arr([Obj([Field("usage", Str("verify")), Field("certificate", Arr(Strings(ca)))])]))
  }

  /** The TLS settings after the edit, field by field. */
  lemma EditedTls(a: Args)
    ensures EditTls(FilledTls(a), EditOf(a.front)) == Obj(
              match a.front
              case None => [Field("serverName", Str(a.host))] + if a.ca == [] then [] else [Certificates(a.ca)]
              case Some(front) =>
                [Field("serverName", Str(front.sni))]
                + [if front.pin == "" then Certificates(a.ca) else Field("pinnedPeerCertSha256", Str(front.pin))])
  {
    var tls := FilledTls(a);
    LookupAt(tls.fields, 1, "certificates");
    var certificate := tls.fields[1].value.items[0];
    LookupAt(certificate.fields, 1, "certificate");
    assert HasEmptyCertificate(tls) <==> a.ca == [];
    hide HasEmptyCertificate;
    match a.front
    case None => DeleteSecond(tls.fields, "certificates");
    case Some(front) =>
      WithFieldAt(tls.fields, 0, "serverName", Str(front.sni));
      var spoofed := tls.fields[0 := Field("serverName", Str(front.sni))];
      assert spoofed == [Field("serverName", Str(front.sni)), Certificates(a.ca)];
      DeleteSecond(spoofed, "certificates");
      assert [spoofed[0]][1..] == [];
      assert WithField([spoofed[0]], "pinnedPeerCertSha256", Str(front.pin))
          == [spoofed[0]] + [Field("pinnedPeerCertSha256", Str(front.pin))];
  }

  lemma DeleteSecond(fields: seq<Field>, key: string)
    requires |fields| == 2 && fields[0].key != key && fields[1].key == key
    ensures WithoutField(fields, key) == [fields[0]]
  {
    assert WithoutField(fields[1..], key) == [] by { assert fields[1..][1..] == []; }
  }

  lemma TlsAgrees(a: Args)
    ensures var front := a.front.GetOr(Front("", ""));
            EditTls(FilledTls(a), EditOf(a.front)) == BuildTls(a.host, a.ca, front.sni, front.pin)
            <==> FrontingAgrees(a)
  {
    EditedTls(a);
    hide EditTls, FilledTls, Strings;
    var front := a.front.GetOr(Front("", ""));
    var edited, built := EditTls(FilledTls(a), EditOf(a.front)).fields,
      BuildTls(a.host, a.ca, front.sni, front.pin).fields;
    assert built[0].value == Str(if front.sni != "" then front.sni else a.host);
    assert |built| == 2 ==>
        built[1] == if front.sni != "" && front.pin != "" then Field("pinnedPeerCertSha256", Str(front.pin))
          else Certificates(a.ca);
    assert edited == built
        <==> |edited| == |built| && edited[0] == built[0] && (|built| == 2 ==> edited[1] == built[1]);
    assert Certificates(a.ca).key != "pinnedPeerCertSha256";
  }

  /**
   Two builders, one configuration: for every user, host, path and CA, filling in and rewriting the Android
   template always succeeds, and gives what the direct builder gives on port 443 exactly when the UDP
   policy is one of the three and fronting, if asked for, has a name and a pin or a CA to verify with.
   */
  lemma RenderMatchesBuild(a: Args)
    ensures Render(ANDROID_SOCKS, a).Rendered?
    ensures Render(ANDROID_SOCKS, a).config == Build(a) <==> KnownPolicy(a.policy) && FrontingAgrees(a)
  {
    var rules, tls := FilledRules(a.policy), FilledTls(a);
    TemplateIsFilled(a);
    RulesAreTrimmed(rules, tls, a);
    TlsIsEdited(WithoutBlank(rules), tls, a, EditOf(a.front));
    BuildHasShape(a);
    TrimmedIffKnown(a.policy);
    TlsAgrees(a);
    var front := a.front.GetOr(Front("", ""));
    var rules', tls' := WithoutBlank(rules), EditTls(tls, EditOf(a.front));
    hide WithoutBlank, EditTls, FilledTls, FilledRules, BuildTls, BuildRules, Shape, FrontingAgrees, KnownPolicy;
    hide Substitute, DropBlankQuicRule, EditConfig, Build, Bindings;
    assert Render(ANDROID_SOCKS, a) == Rendered(Shape(rules', tls', a));
    ShapeIsInjective(rules', tls', BuildRules(a.policy), BuildTls(a.host, a.ca, front.sni, front.pin), a);
  }

  // ----- what the rules mean -----

  /** The number a decimal text stands for. */
  function NumberOf(s: string): int {
    if s == "" then 0 else 10 * NumberOf(s[..|s| - 1]) + (s[|s| - 1] as int - '0' as int)
  }

  /** A rule applies to traffic on one of its networks and, if it names a port, to that port. */
  predicate Applies(rule: Json, network: string, port: nat) {
    && Get(rule, "network").Some? && Get(rule, "network").value.Str?
    && network in Split(Get(rule, "network").value.s, ',')
    && (Get(rule, "port").Some? ==> Get(rule, "port").value.Str? && NumberOf(Get(rule, "port").value.s) == port)
  }

  /** First match wins; traffic no rule applies to takes the first outbound, the tunnel. */
  function Route(rules: seq<Json>, network: string, port: nat): Option<Json> {
    if rules == [] then Some(Str("vless"))
    else if Applies(rules[0], network, port) then Get(rules[0], "outboundTag")
    else Route(rules[1..], network, port)
  }

  /** What the policies promise: names always resolve, UDP is blocked, tunnelled, or tunnelled but for QUIC. */
  function Promised(policy: string, network: string, port: nat): string {
    if port == 53 || network == "tcp" then "vless"
    else if policy == "all" then "vless"
    else if policy == "noquic" then if port == 443 then "block" else "vless"
    else "block"
  }

  function DnsRule(): Json {
    Obj([Field("network", Str("tcp,udp")), Field("port", Str("53")), Field("outboundTag", Str("vless"))])
  }

  function QuicRule(tag: string): Json {
    Obj([Field("network", Str("udp")), Field("port", Str("443")), Field("outboundTag", Str(tag))])
  }

  function UdpRule(tag: string): Json {
    Obj([Field("network", Str("udp")), Field("outboundTag", Str(tag))])
  }

  function UdpTag(policy: string): string {
    if policy == "noquic" || policy == "all" then "vless" else "block"
  }

  /** The rules with the UDP/443 rule spelled out under every policy. */
  function FullRules(policy: string): seq<Json> {
    [DnsRule(), QuicRule(if policy == "all" then "vless" else "block"), UdpRule(UdpTag(policy))]
  }

  lemma PortRule(network: string, port: string, tag: string)
    ensures var rule := Obj([Field("network", Str(network)), Field("port", Str(port)), Field("outboundTag", Str(tag))]);
            && Get(rule, "network") == Some(Str(network)) && Get(rule, "port") == Some(Str(port))
            && Get(rule, "outboundTag") == Some(Str(tag))
  {
    var fields := [Field("network", Str(network)), Field("port", Str(port)), Field("outboundTag", Str(tag))];
    LookupAt(fields, 0, "network");
    LookupAt(fields, 1, "port");
    LookupAt(fields, 2, "outboundTag");
  }

  lemma NetworkRule(network: string, tag: string)
    ensures var rule := Obj([Field("network", Str(network)), Field("outboundTag", Str(tag))]);
            && Get(rule, "network") == Some(Str(network)) && Get(rule, "port").None?
              && Get(rule, "outboundTag") == Some(Str(tag))
  {
    var fields := [Field("network", Str(network)), Field("outboundTag", Str(tag))];
    LookupAt(fields, 0, "network");
    LookupAt(fields, 1, "outboundTag");
    LookupNone(fields, "port");
  }

  lemma Networks()
    ensures Split("tcp,udp", ',') == ["tcp", "udp"] && Split("udp", ',') == ["udp"]
  {
    assert ["tcp", "udp"][1..] == ["udp"];
    assert Join(["tcp", "udp"], ",") == "tcp,udp" && Join(["udp"], ",") == "udp";
    assert [','] == ",";
    SplitJoin(["tcp", "udp"], ',');
    SplitJoin(["udp"], ',');
  }

  lemma Ports()
    ensures NumberOf("53") == 53 && NumberOf("443") == 443
  {
    assert "53"[..1] == "5" && "5"[..0] == "" && "443"[..2] == "44" && "44"[..1] == "4" && "4"[..0] == "";
    assert NumberOf("5") == 5 && NumberOf("4") == 4 && NumberOf("44") == 44;
  }

  lemma RuleMeanings(tag: string, network: string, port: nat)
    requires network in {"tcp", "udp"}
    ensures Applies(DnsRule(), network, port) <==> port == 53
    ensures Applies(QuicRule(tag), network, port) <==> network == "udp" && port == 443
    ensures Applies(UdpRule(tag), network, port) <==> network == "udp"
    ensures Get(DnsRule(), "outboundTag") == Some(Str("vless"))
    ensures Get(QuicRule(tag), "outboundTag") == Get(UdpRule(tag), "outboundTag") == Some(Str(tag))
  {
    Networks();
    Ports();
    PortRule("tcp,udp", "53", "vless");
    PortRule("udp", "443", tag);
    NetworkRule("udp", tag);
    hide Get, Split, NumberOf;
  }

  lemma RouteOfThree(rules: seq<Json>, network: string, port: nat)
    requires |rules| == 3
    ensures Route(rules, network, port) ==
            if Applies(rules[0], network, port) then Get(rules[0], "outboundTag")
            else if Applies(rules[1], network, port) then Get(rules[1], "outboundTag")
            else if Applies(rules[2], network, port) then Get(rules[2], "outboundTag")
            else Some(Str("vless"))
  {
    assert rules[1..][1..] == [rules[2]] && [rules[2]][1..] == [];
    hide Applies, Get;
    assert Route([rules[2]], network, port) == if Applies(rules[2], network, port) then Get(rules[2], "outboundTag")
      else Some(Str("vless"));
  }

  lemma RouteOfTwo(rules: seq<Json>, network: string, port: nat)
    requires |rules| == 2
    ensures Route(rules, network, port) ==
            if Applies(rules[0], network, port) then Get(rules[0], "outboundTag")
            else if Applies(rules[1], network, port) then Get(rules[1], "outboundTag")
            else Some(Str("vless"))
  {
    assert rules[1..] == [rules[1]] && [rules[1]][1..] == [];
    hide Applies, Get;
    assert Route([rules[1]], network, port) == if Applies(rules[1], network, port) then Get(rules[1], "outboundTag")
      else Some(Str("vless"));
  }

  lemma FullRoutes(policy: string, network: string, port: nat)
    requires network in {"tcp", "udp"}
    ensures Route(FullRules(policy), network, port) == Some(Str(Promised(policy, network, port)))
  {
    hide Applies, Get, Route, DnsRule, QuicRule, UdpRule;
    RuleMeanings(if policy == "all" then "vless" else "block", network, port);
    RuleMeanings(UdpTag(policy), network, port);
    RouteOfThree(FullRules(policy), network, port);
  }

  lemma BuiltRules(policy: string)
    ensures BuildRules(policy) == if policy == "noquic" then FullRules(policy) else [DnsRule(), UdpRule(UdpTag(policy))]
  {
    var rules := BuildRules(policy);
    if policy == "noquic" {
      assert |rules| == 3;
    } else {
      assert |rules| == 2;
    }
  }

  /**
   Leaving the UDP/443 rule out where it would be dead weight changes no route: under every policy all
   traffic goes where the policy promises, as under the full list of three rules.
   */
  lemma TrimmedRoutesAlike(policy: string, network: string, port: nat)
    requires network in {"tcp", "udp"}
    ensures Route(BuildRules(policy), network, port) == Route(FullRules(policy), network, port)
                                                     == Some(Str(Promised(policy, network, port)))
  {
    BuiltRules(policy);
    FullRoutes(policy, network, port);
    hide Applies, Get, Route, DnsRule, QuicRule, UdpRule, FullRules, BuildRules;
    if policy != "noquic" {
      RuleMeanings(UdpTag(policy), network, port);
      RouteOfTwo([DnsRule(), UdpRule(UdpTag(policy))], network, port);
    }
  }

  /** So do the rules of the rendered template, under the three policies. */
  lemma RenderedRoutesAsPromised(policy: string, network: string, port: nat)
    requires KnownPolicy(policy) && network in {"tcp", "udp"}
    ensures Route(WithoutBlank(FilledRules(policy)), network, port) == Some(Str(Promised(policy, network, port)))
  {
    TrimmedIffKnown(policy);
    TrimmedRoutesAlike(policy, network, port);
  }
}
