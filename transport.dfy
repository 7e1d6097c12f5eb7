/** The HTTP transport (net_components/net/transport_http.c): network
    bring-up, the batch upload and the command poll, each reduced to a
    boolean over what the HTTP helpers return. */
module TransportHttp {
  import opened Esp
  import opened HttpClient

  /** net_config.h */
  const HTTP_TIMEOUT_MS: int := 15000
  const HTTP_RETRY_MAX: int := 3
  /** The wait for an IP address in transportHttpInit. */
  const IP_WAIT_MS: nat := 10000

  /** transportHttpInit given what the station init returned and whether an
      IP address arrived within 10 s; the SNTP sync runs after both succeed
      and its result is ignored. */
  function InitResult(staInit: Err, gotIp: bool, sntpOk: bool): (ok: bool)
    ensures ok <==> staInit == OK && gotIp
  {
    if staInit != OK then false
    else if !gotIp then false
    else true
  }

  /** transportHttpSend: a POST with 3 attempts and a 15 s timeout, true
      exactly when one of the 3 attempts got a 2xx answer. */
  method Send(c: Client) returns (ok: bool)
    modifies c
    ensures var r := PostFn(c.post, old(c.posts), HTTP_RETRY_MAX);
      c.delays == old(c.delays) + r.delays && c.posts == old(c.posts) + r.used && c.gets == old(c.gets)
    ensures ok <==> exists k: nat :: k < HTTP_RETRY_MAX && SucceedsAt(c.post, old(c.posts), k)
  {
    PostPolicy(c.post, c.posts, HTTP_RETRY_MAX);
    var status := 0;
    var ret;
    ret, status := c.PostJson(HTTP_TIMEOUT_MS, HTTP_RETRY_MAX);
    ok := ret == OK && 200 <= status < 300;
  }

  /** transportHttpCheckCommand: a GET into `buf`, true exactly when the
      server answered with status 200 (the only status httpGetJson accepts);
      the buffer then holds the NUL-terminated start of the body. */
  method CheckCommand(c: Client, buf: array<char>) returns (ok: bool)
    requires buf.Length >= 1
    modifies c, buf
    ensures c.gets == old(c.gets) + 1 && c.posts == old(c.posts) && c.delays == old(c.delays)
    ensures var reply := c.get(old(c.gets));
      && (ok <==> reply.Opened? && reply.contentLength >= 0 && reply.status == 200)
      && (ok ==>
            var t := ReadTotal(c.chunks(old(c.gets)), 0, 0, buf.Length - 1, reply.contentLength, reply.body);
            buf[..] == reply.body[..t] + ['\0'] + old(buf[..])[t + 1..])
      && (!ok ==> buf[..] == old(buf[..]))
  {
    var status := 0;
    var ret, written := c.GetJson(buf, HTTP_TIMEOUT_MS);
    if written.Some? {
      status := written.value;
    }
    ok := ret == OK && 200 <= status < 300;
  }
}
