/**
  The nested blocks of a segment document: the AWS environment (`aws`), the
  application (`service`) and the HTTP exchange. Every field of these blocks
  is optional and skipped when `None`, except `Tracing.sdk`, which is always
  emitted, and `XRay.sdk_version`, which has no skip rule and is emitted as
  `null` when `None`.
 */
module Blocks {
  import opened Wrappers
  import opened Ints
  import opened Json
  import opened Fields

  // ---------------------------------------------------------------------------
  // Service

  /** The service block: the version of the traced application. */
  datatype Service = Service(version: Option<string>)

  function EncodeService(s: Service): (j: Json)
    ensures j.JObject? && j.fields.Keys == KeyIf(s.version.Some?, "version")
  {
    JObject(PutOpt(map[], "version", s.version, EncodeString))
  }

  function DecodeService(j: Json): (r: Result<Service, string>)
    ensures !j.JObject? && !j.JArray? ==> r.Failure?
    ensures j.JObject? ==> (r.Success? <==> Readable(j.fields, "version", DecodeString))
  {
    var m :- StructMembers(j, ["version"], "struct Service");
    var version :- ReadOpt(Get(m, "version"), DecodeString);
    Success(Service(version))
  }

  lemma ServiceRoundTrip(s: Service)
    ensures DecodeService(EncodeService(s)) == Success(s)
  {
  }

  // ---------------------------------------------------------------------------
  // Ecs, Ec2, ElasticBeanstalk

  /** The ECS block: which container ran the segment. */
  datatype Ecs = Ecs(container: Option<string>)

  function EncodeEcs(e: Ecs): (j: Json)
    ensures j.JObject? && j.fields.Keys == KeyIf(e.container.Some?, "container")
  {
    JObject(PutOpt(map[], "container", e.container, EncodeString))
  }

  function DecodeEcs(j: Json): (r: Result<Ecs, string>)
    ensures !j.JObject? && !j.JArray? ==> r.Failure?
    ensures j.JObject? ==> (r.Success? <==> Readable(j.fields, "container", DecodeString))
  {
    var m :- StructMembers(j, ["container"], "struct Ecs");
    var container :- ReadOpt(Get(m, "container"), DecodeString);
    Success(Ecs(container))
  }

  lemma EcsRoundTrip(e: Ecs)
    ensures DecodeEcs(EncodeEcs(e)) == Success(e)
  {
  }

  /** The EC2 block: which instance, in which availability zone, ran the segment. */
  datatype Ec2 = Ec2(instance_id: Option<string>, availability_zone: Option<string>)

  function EncodeEc2(e: Ec2): (j: Json)
    ensures j.JObject?
    ensures j.fields.Keys == KeyIf(e.instance_id.Some?, "instance_id") + KeyIf(e.availability_zone.Some?, "availability_zone")
  {
    var m := PutOpt(map[], "instance_id", e.instance_id, EncodeString);
    JObject(PutOpt(m, "availability_zone", e.availability_zone, EncodeString))
  }

  function DecodeEc2(j: Json): (r: Result<Ec2, string>)
    ensures !j.JObject? && !j.JArray? ==> r.Failure?
    ensures j.JObject? ==> (r.Success? <==>
      Readable(j.fields, "instance_id", DecodeString) && Readable(j.fields, "availability_zone", DecodeString))
  {
    var m :- StructMembers(j, ["instance_id", "availability_zone"], "struct Ec2");
    var instance_id :- ReadOpt(Get(m, "instance_id"), DecodeString);
    var availability_zone :- ReadOpt(Get(m, "availability_zone"), DecodeString);
    Success(Ec2(instance_id, availability_zone))
  }

  lemma Ec2RoundTrip(e: Ec2)
    ensures DecodeEc2(EncodeEc2(e)) == Success(e)
  {
    var m := PutOpt(map[], "instance_id", e.instance_id, EncodeString);
    assert Get(PutOpt(m, "availability_zone", e.availability_zone, EncodeString), "instance_id") == Get(m, "instance_id");
  }

  /** The Elastic Beanstalk environment the application is deployed in. */
  datatype ElasticBeanstalk = ElasticBeanstalk(
    environment_name: Option<string>,
    version_label: Option<string>,
    deployment_id: Option<usize>)

  function BeanstalkMembers(e: ElasticBeanstalk): (m: Members)
    ensures m.Keys == KeyIf(e.environment_name.Some?, "environment_name")
      + KeyIf(e.version_label.Some?, "version_label") + KeyIf(e.deployment_id.Some?, "deployment_id")
    ensures Get(m, "environment_name") == Emitted(e.environment_name, EncodeString)
    ensures Get(m, "version_label") == Emitted(e.version_label, EncodeString)
    ensures Get(m, "deployment_id") == Emitted(e.deployment_id, EncodeU64)
  {
    var m := PutOpt(map[], "environment_name", e.environment_name, EncodeString);
    var m := PutOpt(m, "version_label", e.version_label, EncodeString);
    PutOpt(m, "deployment_id", e.deployment_id, EncodeU64)
  }

  function EncodeBeanstalk(e: ElasticBeanstalk): (j: Json)
    ensures j.JObject?
    ensures j.fields.Keys == KeyIf(e.environment_name.Some?, "environment_name")
      + KeyIf(e.version_label.Some?, "version_label") + KeyIf(e.deployment_id.Some?, "deployment_id")
  {
    JObject(BeanstalkMembers(e))
  }

  function DecodeBeanstalk(j: Json): (r: Result<ElasticBeanstalk, string>)
    ensures !j.JObject? && !j.JArray? ==> r.Failure?
    ensures j.JObject? ==> (r.Success? <==>
      && Readable(j.fields, "environment_name", DecodeString)
      && Readable(j.fields, "version_label", DecodeString)
      && Readable(j.fields, "deployment_id", DecodeU64))
  {
    var m :- StructMembers(j, ["environment_name", "version_label", "deployment_id"], "struct ElasticBeanstalk");
    var environment_name :- ReadOpt(Get(m, "environment_name"), DecodeString);
    var version_label :- ReadOpt(Get(m, "version_label"), DecodeString);
    var deployment_id :- ReadOpt(Get(m, "deployment_id"), DecodeU64);
    Success(ElasticBeanstalk(environment_name, version_label, deployment_id))
  }

  lemma BeanstalkRoundTrip(e: ElasticBeanstalk)
    ensures DecodeBeanstalk(EncodeBeanstalk(e)) == Success(e)
  {
    ReadOptEmitted(e.environment_name, EncodeString, DecodeString);
    ReadOptEmitted(e.version_label, EncodeString, DecodeString);
    ReadOptEmitted(e.deployment_id, EncodeU64, DecodeU64);
  }

  // ---------------------------------------------------------------------------
  // Tracing, XRay

  /** The SDK version; the field is required and always emitted. */
  datatype Tracing = Tracing(sdk: string)

  function EncodeTracing(t: Tracing): (j: Json)
    ensures j.JObject? && j.fields.Keys == {"sdk"}
  {
    JObject(Put(map[], "sdk", JString(t.sdk)))
  }

  function DecodeTracing(j: Json): (r: Result<Tracing, string>)
    ensures !j.JObject? && !j.JArray? ==> r.Failure?
    ensures j.JObject? && "sdk" !in j.fields ==> r == Failure(MissingField("sdk"))
    ensures j.JObject? ==> (r.Success? <==> "sdk" in j.fields && j.fields["sdk"].JString?)
  {
    var m :- StructMembers(j, ["sdk"], "struct Tracing");
    var sdk :- ReadReq(Get(m, "sdk"), "sdk", DecodeString);
    Success(Tracing(sdk))
  }

  lemma TracingRoundTrip(t: Tracing)
    ensures DecodeTracing(EncodeTracing(t)) == Success(t)
  {
  }

  /** The X-Ray SDK version; no skip rule, so `None` is emitted as `null`. */
  datatype XRay = XRay(sdk_version: Option<string>)

  function EncodeXRay(x: XRay): (j: Json)
    ensures j.JObject? && j.fields.Keys == {"sdk_version"}
    ensures x.sdk_version.None? <==> j.fields["sdk_version"] == JNull
  {
    JObject(Put(map[], "sdk_version", OptJson(x.sdk_version, EncodeString)))
  }

  /** An `Option` field without a default: both a missing member and `null` read as `None`. */
  function DecodeXRay(j: Json): (r: Result<XRay, string>)
    ensures !j.JObject? && !j.JArray? ==> r.Failure?
    ensures j.JObject? && ("sdk_version" !in j.fields || j.fields["sdk_version"] == JNull) ==> r == Success(XRay(None))
    ensures j.JObject? ==> (r.Success? <==> Readable(j.fields, "sdk_version", DecodeString))
  {
    var m :- StructMembers(j, ["sdk_version"], "struct XRay");
    var sdk_version :- ReadOpt(Get(m, "sdk_version"), DecodeString);
    Success(XRay(sdk_version))
  }

  lemma XRayRoundTrip(x: XRay)
    ensures DecodeXRay(EncodeXRay(x)) == Success(x)
  {
    ReadOptOfOptJson(x.sdk_version, EncodeString, DecodeString);
  }

  // ---------------------------------------------------------------------------
  // Aws

  /** Context about the AWS environment the segment ran in. */
  datatype Aws = Aws(
    account_id: Option<string>,
    ecs: Option<Ecs>,
    ec2: Option<Ec2>,
    elastic_beanstalk: Option<ElasticBeanstalk>,
    tracing: Option<Tracing>,
    xray: Option<XRay>)

  /** The keys of the present blocks. */
  function AwsKeys(a: Aws): set<string>
  {
    AwsHeadKeys(a) + KeyIf(a.elastic_beanstalk.Some?, "elastic_beanstalk") + KeyIf(a.tracing.Some?, "tracing")
      + KeyIf(a.xray.Some?, "xray")
  }

  function AwsHeadKeys(a: Aws): set<string>
  {
    KeyIf(a.account_id.Some?, "account_id") + KeyIf(a.ecs.Some?, "ecs") + KeyIf(a.ec2.Some?, "ec2")
  }

  /** The first three members of the `aws` block. */
  function AwsHead(a: Aws): (m: Members)
    ensures m.Keys == AwsHeadKeys(a)
    ensures Get(m, "account_id") == Emitted(a.account_id, EncodeString)
    ensures Get(m, "ecs") == Emitted(a.ecs, EncodeEcs)
    ensures Get(m, "ec2") == Emitted(a.ec2, EncodeEc2)
  {
    var m := PutOpt(map[], "account_id", a.account_id, EncodeString);
    var m := PutOpt(m, "ecs", a.ecs, EncodeEcs);
    PutOpt(m, "ec2", a.ec2, EncodeEc2)
  }

  function AwsMembers(a: Aws): (m: Members)
    ensures m.Keys == AwsKeys(a)
  {
    var m := PutOpt(AwsHead(a), "elastic_beanstalk", a.elastic_beanstalk, EncodeBeanstalk);
    var m := PutOpt(m, "tracing", a.tracing, EncodeTracing);
    PutOpt(m, "xray", a.xray, EncodeXRay)
  }

  lemma AwsHeadMembers(a: Aws)
    ensures Get(AwsMembers(a), "account_id") == Emitted(a.account_id, EncodeString)
    ensures Get(AwsMembers(a), "ecs") == Emitted(a.ecs, EncodeEcs)
    ensures Get(AwsMembers(a), "ec2") == Emitted(a.ec2, EncodeEc2)
  {
  }

  lemma AwsTailMembers(a: Aws)
    ensures Get(AwsMembers(a), "elastic_beanstalk") == Emitted(a.elastic_beanstalk, EncodeBeanstalk)
    ensures Get(AwsMembers(a), "tracing") == Emitted(a.tracing, EncodeTracing)
    ensures Get(AwsMembers(a), "xray") == Emitted(a.xray, EncodeXRay)
  {
  }

  /** Each block is emitted exactly when it is present. */
  function EncodeAws(a: Aws): (j: Json)
    ensures j.JObject? && j.fields.Keys == AwsKeys(a)
  {
    JObject(AwsMembers(a))
  }

  const AWS_FIELDS: seq<string> := ["account_id", "ecs", "ec2", "elastic_beanstalk", "tracing", "xray"]

  function DecodeAws(j: Json): (r: Result<Aws, string>)
    ensures !j.JObject? && !j.JArray? ==> r.Failure?
    ensures j.JObject? ==> (r.Success? <==> AwsReadable(j.fields))
  {
    var m :- StructMembers(j, AWS_FIELDS, "struct Aws");
    AwsOfMembers(m)
  }

  /** Every block of an `aws` object reads. */
  predicate AwsReadable(m: Members)
  {
    && Readable(m, "account_id", DecodeString)
    && Readable(m, "ecs", DecodeEcs)
    && Readable(m, "ec2", DecodeEc2)
    && Readable(m, "elastic_beanstalk", DecodeBeanstalk)
    && Readable(m, "tracing", DecodeTracing)
    && Readable(m, "xray", DecodeXRay)
  }

  function AwsOfMembers(m: Members): (r: Result<Aws, string>)
    ensures r.Success? <==> AwsReadable(m)
  {
    var account_id :- ReadOpt(Get(m, "account_id"), DecodeString);
    var ecs :- ReadOpt(Get(m, "ecs"), DecodeEcs);
    var ec2 :- ReadOpt(Get(m, "ec2"), DecodeEc2);
    AwsTailOfMembers(m, account_id, ecs, ec2)
  }

  function AwsTailOfMembers(m: Members, account_id: Option<string>, ecs: Option<Ecs>, ec2: Option<Ec2>): (r: Result<Aws, string>)
    ensures r.Success? <==>
      Readable(m, "elastic_beanstalk", DecodeBeanstalk) && Readable(m, "tracing", DecodeTracing) && Readable(m, "xray", DecodeXRay)
  {
    var elastic_beanstalk :- ReadOpt(Get(m, "elastic_beanstalk"), DecodeBeanstalk);
    var tracing :- ReadOpt(Get(m, "tracing"), DecodeTracing);
    var xray :- ReadOpt(Get(m, "xray"), DecodeXRay);
    Success(Aws(account_id, ecs, ec2, elastic_beanstalk, tracing, xray))
  }

  lemma AwsTailRead(a: Aws, m: Members)
    requires Get(m, "elastic_beanstalk") == Emitted(a.elastic_beanstalk, EncodeBeanstalk)
    requires Get(m, "tracing") == Emitted(a.tracing, EncodeTracing)
    requires Get(m, "xray") == Emitted(a.xray, EncodeXRay)
    ensures AwsTailOfMembers(m, a.account_id, a.ecs, a.ec2) == Success(a)
  {
    if a.elastic_beanstalk.Some? { BeanstalkRoundTrip(a.elastic_beanstalk.value); }
    if a.tracing.Some? { TracingRoundTrip(a.tracing.value); }
    if a.xray.Some? { XRayRoundTrip(a.xray.value); }
    ReadOptEmitted(a.elastic_beanstalk, EncodeBeanstalk, DecodeBeanstalk);
    ReadOptEmitted(a.tracing, EncodeTracing, DecodeTracing);
    ReadOptEmitted(a.xray, EncodeXRay, DecodeXRay);
  }

  lemma AwsRoundTrip(a: Aws)
    ensures DecodeAws(EncodeAws(a)) == Success(a)
  {
    var m := AwsMembers(a);
    AwsHeadMembers(a);
    AwsTailMembers(a);
    AwsTailRead(a, m);
    if a.ecs.Some? { EcsRoundTrip(a.ecs.value); }
    if a.ec2.Some? { Ec2RoundTrip(a.ec2.value); }
    ReadOptEmitted(a.account_id, EncodeString, DecodeString);
    ReadOptEmitted(a.ecs, EncodeEcs, DecodeEcs);
    ReadOptEmitted(a.ec2, EncodeEc2, DecodeEc2);
  }

  // ---------------------------------------------------------------------------
  // Http

  /** The request half of the HTTP block: what the client asked for. */
  datatype Request = Request(
    http_method: Option<string>,
    url: Option<string>,
    client_ip: Option<string>,
    user_agent: Option<string>,
    x_forwarded_for: Option<string>,
    traced: Option<bool>)

  /** The keys of the present fields. */
  function RequestKeys(q: Request): set<string>
  {
    RequestHeadKeys(q) + KeyIf(q.user_agent.Some?, "user_agent") + KeyIf(q.x_forwarded_for.Some?, "x_forwarded_for")
      + KeyIf(q.traced.Some?, "traced")
  }

  function RequestHeadKeys(q: Request): set<string>
  {
    KeyIf(q.http_method.Some?, "method") + KeyIf(q.url.Some?, "url") + KeyIf(q.client_ip.Some?, "client_ip")
  }

  function RequestHead(q: Request): (m: Members)
    ensures m.Keys == RequestHeadKeys(q)
    ensures Get(m, "method") == Emitted(q.http_method, EncodeString)
    ensures Get(m, "url") == Emitted(q.url, EncodeString)
    ensures Get(m, "client_ip") == Emitted(q.client_ip, EncodeString)
  {
    var m := PutOpt(map[], "method", q.http_method, EncodeString);
    var m := PutOpt(m, "url", q.url, EncodeString);
    PutOpt(m, "client_ip", q.client_ip, EncodeString)
  }

  function RequestMembers(q: Request): (m: Members)
    ensures m.Keys == RequestKeys(q)
  {
    var m := PutOpt(RequestHead(q), "user_agent", q.user_agent, EncodeString);
    var m := PutOpt(m, "x_forwarded_for", q.x_forwarded_for, EncodeString);
    PutOpt(m, "traced", q.traced, EncodeBool)
  }

  lemma RequestHeadMembers(q: Request)
    ensures Get(RequestMembers(q), "method") == Emitted(q.http_method, EncodeString)
    ensures Get(RequestMembers(q), "url") == Emitted(q.url, EncodeString)
    ensures Get(RequestMembers(q), "client_ip") == Emitted(q.client_ip, EncodeString)
  {
    var m := RequestMembers(q);
    var h := RequestHead(q);
    assert Get(m, "method") == Get(h, "method");
    assert Get(m, "url") == Get(h, "url");
    assert Get(m, "client_ip") == Get(h, "client_ip");
  }

  lemma RequestTailMembers(q: Request)
    ensures Get(RequestMembers(q), "user_agent") == Emitted(q.user_agent, EncodeString)
    ensures Get(RequestMembers(q), "x_forwarded_for") == Emitted(q.x_forwarded_for, EncodeString)
    ensures Get(RequestMembers(q), "traced") == Emitted(q.traced, EncodeBool)
  {
  }

  function EncodeRequest(q: Request): (j: Json)
    ensures j.JObject? && j.fields.Keys == RequestKeys(q)
  {
    JObject(RequestMembers(q))
  }

  const REQUEST_FIELDS: seq<string> := ["method", "url", "client_ip", "user_agent", "x_forwarded_for", "traced"]

  function DecodeRequest(j: Json): (r: Result<Request, string>)
    ensures !j.JObject? && !j.JArray? ==> r.Failure?
    ensures j.JObject? ==> (r.Success? <==> RequestReadable(j.fields))
  {
    var m :- StructMembers(j, REQUEST_FIELDS, "struct Request");
    RequestOfMembers(m)
  }

  /** Every field of a `request` object reads. */
  predicate RequestReadable(m: Members)
  {
    && Readable(m, "method", DecodeString)
    && Readable(m, "url", DecodeString)
    && Readable(m, "client_ip", DecodeString)
    && Readable(m, "user_agent", DecodeString)
    && Readable(m, "x_forwarded_for", DecodeString)
    && Readable(m, "traced", DecodeBool)
  }

  function RequestOfMembers(m: Members): (r: Result<Request, string>)
    ensures r.Success? <==> RequestReadable(m)
  {
    var http_method :- ReadOpt(Get(m, "method"), DecodeString);
    var url :- ReadOpt(Get(m, "url"), DecodeString);
    var client_ip :- ReadOpt(Get(m, "client_ip"), DecodeString);
    RequestTailOfMembers(m, http_method, url, client_ip)
  }

  function RequestTailOfMembers(m: Members, http_method: Option<string>, url: Option<string>, client_ip: Option<string>): (r: Result<Request, string>)
    ensures r.Success? <==>
      Readable(m, "user_agent", DecodeString) && Readable(m, "x_forwarded_for", DecodeString) && Readable(m, "traced", DecodeBool)
  {
    var user_agent :- ReadOpt(Get(m, "user_agent"), DecodeString);
    var x_forwarded_for :- ReadOpt(Get(m, "x_forwarded_for"), DecodeString);
    var traced :- ReadOpt(Get(m, "traced"), DecodeBool);
    Success(Request(http_method, url, client_ip, user_agent, x_forwarded_for, traced))
  }

  lemma RequestTailRead(q: Request)
    ensures RequestTailOfMembers(RequestMembers(q), q.http_method, q.url, q.client_ip) == Success(q)
  {
    RequestTailMembers(q);
    ReadOptEmitted(q.user_agent, EncodeString, DecodeString);
    ReadOptEmitted(q.x_forwarded_for, EncodeString, DecodeString);
    ReadOptEmitted(q.traced, EncodeBool, DecodeBool);
  }

  lemma RequestRoundTrip(q: Request)
    ensures DecodeRequest(EncodeRequest(q)) == Success(q)
  {
    RequestHeadMembers(q);
    RequestTailRead(q);
    ReadOptEmitted(q.http_method, EncodeString, DecodeString);
    ReadOptEmitted(q.url, EncodeString, DecodeString);
    ReadOptEmitted(q.client_ip, EncodeString, DecodeString);
  }

  /** The response half of the HTTP block: what the server answered. */
  datatype Response = Response(status: Option<u16>, content_length: Option<u64>)

  function EncodeResponse(p: Response): (j: Json)
    ensures j.JObject?
    ensures j.fields.Keys == KeyIf(p.status.Some?, "status") + KeyIf(p.content_length.Some?, "content_length")
  {
    var m := PutOpt(map[], "status", p.status, EncodeU16);
    JObject(PutOpt(m, "content_length", p.content_length, EncodeU64))
  }

  /** A status outside the `u16` range is rejected. */
  function DecodeResponse(j: Json): (r: Result<Response, string>)
    ensures !j.JObject? && !j.JArray? ==> r.Failure?
    ensures j.JObject? && "status" in j.fields && j.fields["status"].JInt? && j.fields["status"].i >= U16_LIMIT ==> r.Failure?
    ensures j.JObject? ==> (r.Success? <==>
      Readable(j.fields, "status", DecodeU16) && Readable(j.fields, "content_length", DecodeU64))
  {
    var m :- StructMembers(j, ["status", "content_length"], "struct Response");
    var status :- ReadOpt(Get(m, "status"), DecodeU16);
    var content_length :- ReadOpt(Get(m, "content_length"), DecodeU64);
    Success(Response(status, content_length))
  }

  lemma ResponseRoundTrip(p: Response)
    ensures DecodeResponse(EncodeResponse(p)) == Success(p)
  {
    var m := PutOpt(map[], "status", p.status, EncodeU16);
    assert Get(PutOpt(m, "content_length", p.content_length, EncodeU64), "status") == Get(m, "status");
  }

  /** An HTTP request/response cycle. */
  datatype Http = Http(request: Option<Request>, response: Option<Response>)

  function EncodeHttp(h: Http): (j: Json)
    ensures j.JObject?
    ensures j.fields.Keys == KeyIf(h.request.Some?, "request") + KeyIf(h.response.Some?, "response")
  {
    var m := PutOpt(map[], "request", h.request, EncodeRequest);
    JObject(PutOpt(m, "response", h.response, EncodeResponse))
  }

  function DecodeHttp(j: Json): (r: Result<Http, string>)
    ensures !j.JObject? && !j.JArray? ==> r.Failure?
    ensures j.JObject? ==> (r.Success? <==>
      Readable(j.fields, "request", DecodeRequest) && Readable(j.fields, "response", DecodeResponse))
  {
    var m :- StructMembers(j, ["request", "response"], "struct Http");
    var request :- ReadOpt(Get(m, "request"), DecodeRequest);
    var response :- ReadOpt(Get(m, "response"), DecodeResponse);
    Success(Http(request, response))
  }

  lemma HttpRoundTrip(h: Http)
    ensures DecodeHttp(EncodeHttp(h)) == Success(h)
  {
    if h.request.Some? { RequestRoundTrip(h.request.value); }
    if h.response.Some? { ResponseRoundTrip(h.response.value); }
    var m := PutOpt(map[], "request", h.request, EncodeRequest);
    assert Get(PutOpt(m, "response", h.response, EncodeResponse), "request") == Get(m, "request");
    ReadOptEmitted(h.request, EncodeRequest, DecodeRequest);
  }
}
