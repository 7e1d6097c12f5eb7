/** The HTTP helpers of net_components/net/http_client_common.c:
    httpPostJson (bounded retries with a linear back-off) and httpGetJson
    (one GET whose body is read into a caller buffer). The HTTP library is
    an oracle: what each client init, perform, open, header fetch and body
    read returns. */
module HttpClient {
  import opened Esp

  /** Step of the linear back-off: attempt i (from 0) waits 300 * (i + 1) ms. */
  const BACKOFF_STEP_MS: nat := 300

  predicate Is2xx(sc: int) {
    200 <= sc < 300
  }

  /** The outcome of one POST attempt: no client handle, or the perform
      result with the status code the server sent (read only when the
      perform succeeded). */
  datatype Attempt = NoClient | Performed(ret: Err, status: int)

  predicate Succeeded(a: Attempt) {
    a.Performed? && a.ret == OK && Is2xx(a.status)
  }

  /** The delays after the first m attempts: 300, 600, ... ms. */
  function Backoff(m: nat): (d: seq<nat>)
    ensures |d| == m && forall j :: 0 <= j < m ==> d[j] == BACKOFF_STEP_MS * (j + 1)
  {
    if m == 0 then [] else Backoff(m - 1) + [BACKOFF_STEP_MS * m]
  }

  /** What httpPostJson returns, writes to *status and sleeps, and how many
      attempts it made. */
  datatype Post = Post(ret: Err, status: int, delays: seq<nat>, used: nat)

  /** The perform result an attempt leaves in `ret`: unchanged when no
      client could be created. */
  function NextRet(a: Attempt, ret: Err): Err {
    if a.Performed? then a.ret else ret
  }

  /** The status an attempt leaves in `sc`: read only after a successful
      perform. */
  function NextSc(a: Attempt, sc: int): int {
    if a.Performed? && a.ret == OK then a.status else sc
  }

  /** The retry loop from attempt i, with `ret` the last perform result and
      `sc` the last status read. A 2xx answer returns at once; any other
      attempt is followed by a delay unless it was the last one. */
  function PostFrom(att: nat -> Attempt, k0: nat, n: int, i: nat, ret: Err, sc: int, d: seq<nat>): Post
    decreases n - i
  {
    if i >= n then Post(ret, sc, d, i)
    else
      var a := att(k0 + i);
      if Succeeded(a) then Post(OK, a.status, d, i + 1)
      else
        var d' := if i < n - 1 then d + [BACKOFF_STEP_MS * (i + 1)] else d;
        PostFrom(att, k0, n, i + 1, NextRet(a, ret), NextSc(a, sc), d')
  }

  /** httpPostJson with `n` = retry_max, its attempts answered by att(k0),
      att(k0 + 1), ... */
  function PostFn(att: nat -> Attempt, k0: nat, n: int): Post {
    PostFrom(att, k0, n, 0, FAIL, -1, [])
  }

  /** Attempt k of a call whose first attempt is k0 got a 2xx answer. */
  predicate SucceedsAt(att: nat -> Attempt, k0: nat, k: nat) {
    Succeeded(att(k0 + k))
  }

  /** The first attempt from i on that got a 2xx answer, n if none. */
  function FirstSuccess(att: nat -> Attempt, k0: nat, n: int, i: nat): (j: int)
    ensures i < n ==> i <= j <= n
    ensures i <= j < n ==> Succeeded(att(k0 + j))
    decreases n - i
  {
    if i >= n then n
    else if Succeeded(att(k0 + i)) then i
    else FirstSuccess(att, k0, n, i + 1)
  }

  lemma {:induction false} PostFromFirstSuccess(att: nat -> Attempt, k0: nat, n: int, i: nat, ret: Err, sc: int)
    requires i < n && FirstSuccess(att, k0, n, i) < n
    ensures var j := FirstSuccess(att, k0, n, i);
      PostFrom(att, k0, n, i, ret, sc, Backoff(i)) == Post(OK, att(k0 + j).status, Backoff(j), j + 1)
    decreases n - i
  {
    var a := att(k0 + i);
    if Succeeded(a) {
      assert FirstSuccess(att, k0, n, i) == i;
    } else {
      assert FirstSuccess(att, k0, n, i) == FirstSuccess(att, k0, n, i + 1);
      assert i + 1 < n;
      var d' := Backoff(i) + [BACKOFF_STEP_MS * (i + 1)];
      assert d' == Backoff(i + 1);
      assert PostFrom(att, k0, n, i, ret, sc, Backoff(i)) == PostFrom(att, k0, n, i + 1, NextRet(a, ret), NextSc(a, sc), d');
      PostFromFirstSuccess(att, k0, n, i + 1, NextRet(a, ret), NextSc(a, sc));
    }
  }

  lemma {:induction false} PostFromNoSuccess(att: nat -> Attempt, k0: nat, n: int, i: nat, ret: Err, sc: int)
    requires i < n && FirstSuccess(att, k0, n, i) == n && !(ret == OK && Is2xx(sc))
    ensures var r := PostFrom(att, k0, n, i, ret, sc, Backoff(i));
      !(r.ret == OK && Is2xx(r.status)) && r.delays == Backoff(n - 1) && r.used == n
    decreases n - i
  {
    if i + 1 < n {
      var d' := Backoff(i) + [BACKOFF_STEP_MS * (i + 1)];
      assert d' == Backoff(i + 1);
      PostFromNoSuccess(att, k0, n, i + 1, NextRet(att(k0 + i), ret), NextSc(att(k0 + i), sc));
    }
  }

  /** httpPostJson reports success (ESP_OK with a 2xx status) exactly when
      one of its retry_max attempts got a 2xx answer; it then reports the
      first such status and has slept 300, 600, ... ms after each earlier
      attempt. When none succeeds it makes all retry_max attempts and sleeps
      after all but the last. With retry_max <= 0 it makes no attempt and
      returns ESP_FAIL with status -1. */
  lemma PostPolicy(att: nat -> Attempt, k0: nat, n: int)
    ensures n <= 0 ==> PostFn(att, k0, n) == Post(FAIL, -1, [], 0)
    ensures var r, j := PostFn(att, k0, n), FirstSuccess(att, k0, n, 0);
      && (r.ret == OK && Is2xx(r.status) <==> exists k: nat :: k < n && SucceedsAt(att, k0, k))
      && (0 < n && j < n ==> r == Post(OK, att(k0 + j).status, Backoff(j), j + 1))
      && (0 < n && j == n ==> r.delays == Backoff(n - 1) && r.used == n)
  {
    if 0 < n {
      FirstSuccessWitness(att, k0, n, 0);
      if FirstSuccess(att, k0, n, 0) < n {
        PostFromFirstSuccess(att, k0, n, 0, FAIL, -1);
      } else {
        PostFromNoSuccess(att, k0, n, 0, FAIL, -1);
      }
    }
  }

  /** A call with retry_max > 0 makes between 1 and retry_max attempts and
      sleeps fewer times than it attempts. */
  lemma PostUsesAttempts(att: nat -> Attempt, k0: nat, n: int)
    requires 0 < n
    ensures 1 <= PostFn(att, k0, n).used <= n
    ensures |PostFn(att, k0, n).delays| < PostFn(att, k0, n).used
  {
    PostPolicy(att, k0, n);
  }

  lemma {:induction false} FirstSuccessWitness(att: nat -> Attempt, k0: nat, n: int, i: nat)
    requires i < n
    ensures FirstSuccess(att, k0, n, i) < n <==> exists k: nat :: i <= k < n && SucceedsAt(att, k0, k)
    decreases n - i
  {
    if Succeeded(att(k0 + i)) {
      assert SucceedsAt(att, k0, i);
    } else if i + 1 < n {
      FirstSuccessWitness(att, k0, n, i + 1);
    }
  }

  /** A final attempt that reaches the server but gets a non-2xx answer
      still leaves httpPostJson returning ESP_OK, with that status. */
  lemma NonSuccessStatusStillOk(att: nat -> Attempt, k0: nat, n: int)
    requires 0 < n && FirstSuccess(att, k0, n, 0) == n
    requires att(k0 + n - 1).Performed? && att(k0 + n - 1).ret == OK
    ensures PostFn(att, k0, n).ret == OK && PostFn(att, k0, n).status == att(k0 + n - 1).status
    ensures !Is2xx(PostFn(att, k0, n).status)
  {
    PostFromTail(att, k0, n, 0, FAIL, -1, []);
  }

  lemma {:induction false} PostFromTail(att: nat -> Attempt, k0: nat, n: int, i: nat, ret: Err, sc: int, d: seq<nat>)
    requires i < n && FirstSuccess(att, k0, n, i) == n
    requires att(k0 + n - 1).Performed? && att(k0 + n - 1).ret == OK
    ensures PostFrom(att, k0, n, i, ret, sc, d).ret == OK
    ensures PostFrom(att, k0, n, i, ret, sc, d).status == att(k0 + n - 1).status
    ensures !Is2xx(PostFrom(att, k0, n, i, ret, sc, d).status)
    decreases n - i
  {
    var d' := if i < n - 1 then d + [BACKOFF_STEP_MS * (i + 1)] else d;
    if i + 1 < n {
      PostFromTail(att, k0, n, i + 1, NextRet(att(k0 + i), ret), NextSc(att(k0 + i), sc), d');
    }
  }

  /** A failed client init on the last attempt changes nothing: the result
      is that of the earlier attempts (ESP_FAIL and -1 if there were none). */
  lemma {:induction false} LastInitFailureKeepsEarlier(att: nat -> Attempt, k0: nat, n: int, i: nat, ret: Err, sc: int, d: seq<nat>)
    requires i < n && att(k0 + n - 1).NoClient?
    ensures PostFrom(att, k0, n, i, ret, sc, d).ret == PostFrom(att, k0, n - 1, i, ret, sc, d).ret
    ensures PostFrom(att, k0, n, i, ret, sc, d).status == PostFrom(att, k0, n - 1, i, ret, sc, d).status
    decreases n - i
  {
    if i + 1 < n {
      var d' := d + [BACKOFF_STEP_MS * (i + 1)];
      LastInitFailureKeepsEarlier(att, k0, n, i + 1, NextRet(att(k0 + i), ret), NextSc(att(k0 + i), sc), d');
    }
  }

  /** What one GET gets from the library: no client handle, an open error,
      or an open connection with the header fetch result (a negative content
      length is a failed fetch), the status code and the body. */
  datatype Reply =
    | GetNoClient
    | OpenFailed(err: Err)
    | Opened(contentLength: int, status: int, body: seq<char>)

  /** The body-read loop of httpGetJson: `total` bytes read so far, `want`
      = buf_len - 1, each read of chunk size chunks(k) (<= 0 ends the read)
      returning at most what is asked and what is left of the body. The
      result is the number of bytes read when the loop ends. */
  function ReadTotal(chunks: nat -> int, k: nat, total: nat, want: nat, cl: int, body: seq<char>): (t: nat)
    requires total <= want && total <= |body|
    ensures total <= t <= want && t <= |body|
    decreases want - total
  {
    if total >= want then total
    else
      var len := Chunk(chunks(k), want - total, |body| - total);
      if len <= 0 then total
      else if cl > 0 && total + len >= cl then total + len
      else ReadTotal(chunks, k + 1, total + len, want, cl, body)
  }

  /** esp_http_client_read asked for `ask` bytes with `left` bytes of body
      left: at most both. */
  function Chunk(c: int, ask: nat, left: nat): (len: int)
    ensures len <= ask && len <= left
    ensures c <= 0 ==> len == c
  {
    if c <= 0 then c else if c <= ask && c <= left then c else if ask <= left then ask else left
  }

  /** The reads of one GET stop when the buffer is full, a read returns no
      bytes, or the announced content length has been read; they never read
      past the body. */
  lemma {:induction false} ReadTotalStops(chunks: nat -> int, k: nat, total: nat, want: nat, cl: int, body: seq<char>)
    requires total <= want && total <= |body|
    ensures var t := ReadTotal(chunks, k, total, want, cl, body);
      t == want || t == |body| || (cl > 0 && t >= cl) || exists j :: k <= j && chunks(j) <= 0
    decreases want - total
  {
    if total < want {
      var len := Chunk(chunks(k), want - total, |body| - total);
      if len > 0 && !(cl > 0 && total + len >= cl) {
        ReadTotalStops(chunks, k + 1, total + len, want, cl, body);
      } else if len <= 0 && chunks(k) > 0 {
        assert len == 0 && total == |body|;
      }
    }
  }

  /** The HTTP library as the two helpers see it, with the delays they
      sleep. */
  class Client {
    /** The outcome of the k-th POST attempt. */
    const post: nat -> Attempt
    /** The reply to the k-th GET. */
    const get: nat -> Reply
    /** Chunk sizes of the body reads of the k-th GET. */
    const chunks: nat -> nat -> int
    var posts: nat
    var gets: nat
    var delays: seq<nat>

    constructor (post: nat -> Attempt, get: nat -> Reply, chunks: nat -> nat -> int)
      ensures this.post == post && this.get == get && this.chunks == chunks
      ensures posts == 0 && gets == 0 && delays == []
    {
      this.post, this.get, this.chunks := post, get, chunks;
      posts, gets, delays := 0, 0, [];
    }

    /** httpPostJson(url, json, &status, timeout_ms, retry_max). */
    method PostJson(timeoutMs: int, retryMax: int) returns (ret: Err, status: int)
      modifies this
      ensures var r := PostFn(post, old(posts), retryMax);
        && ret == r.ret && status == r.status
        && delays == old(delays) + r.delays && posts == old(posts) + r.used
      ensures gets == old(gets)
    {
      ghost var k0, d0 := posts, delays;
      ghost var d: seq<nat> := [];
      ret := FAIL;
      var sc := -1;
      var i: nat := 0;
      while i < retryMax
        invariant posts == k0 + i && delays == d0 + d && gets == old(gets)
        invariant PostFn(post, k0, retryMax) == PostFrom(post, k0, retryMax, i, ret, sc, d)
        decreases retryMax - i
      {
        var a := post(posts);
        posts := posts + 1;
        if a.NoClient? {
          if i == retryMax - 1 {
            i := i + 1;
            break;
          }
          delays, d := delays + [BACKOFF_STEP_MS * (i + 1)], d + [BACKOFF_STEP_MS * (i + 1)];
          i := i + 1;
          continue;
        }
        ret := a.ret;
        if ret == OK {
          sc := a.status;
          if Is2xx(sc) {
            return OK, sc;
          }
        }
        if i < retryMax - 1 {
          delays, d := delays + [BACKOFF_STEP_MS * (i + 1)], d + [BACKOFF_STEP_MS * (i + 1)];
        }
        i := i + 1;
      }
      status := sc;
    }

    /** The body-read loop of httpGetJson: fills buf from index 0 with the
      body, at most buf.Length - 1 bytes, and returns how many it read. */
    method ReadBody(buf: array<char>, ch: nat -> int, cl: int, body: seq<char>) returns (total: nat)
      requires buf.Length >= 1
      modifies buf
      ensures total == ReadTotal(ch, 0, 0, buf.Length - 1, cl, body)
      ensures buf[..total] == body[..total] && buf[total..] == old(buf[..])[total..]
    {
      var want := buf.Length - 1;
      total := 0;
      var k: nat := 0;
      while total < want
        invariant total <= want && total <= |body|
        invariant buf[..total] == body[..total] && buf[total..] == old(buf[..])[total..]
        invariant ReadTotal(ch, 0, 0, want, cl, body) == ReadTotal(ch, k, total, want, cl, body)
        decreases want - total
      {
        var len := Chunk(ch(k), want - total, |body| - total);
        k := k + 1;
        if len <= 0 {
          break;
        }
        forall j | total <= j < total + len {
          buf[j] := body[j];
        }
        total := total + len;
        if cl > 0 && total >= cl {
          break;
        }
      }
    }

    /** httpGetJson(url, buf, buf.Length, &status, timeout_ms). `status` is
      None when *status_code is not written. On status 200 the buffer holds
      the first ReadTotal bytes of the body and a NUL; otherwise it is not
      written. The buffer must hold at least the terminating NUL. */
    method GetJson(buf: array<char>, timeoutMs: int) returns (ret: Err, status: Option<int>)
      requires buf.Length >= 1
      modifies this, buf
      ensures gets == old(gets) + 1 && posts == old(posts) && delays == old(delays)
      ensures var reply := get(old(gets));
        match reply
        case GetNoClient => ret == FAIL && status == None && buf[..] == old(buf[..])
        case OpenFailed(e) => ret == e && status == None && buf[..] == old(buf[..])
        case Opened(cl, sc, body) =>
          && (cl < 0 ==> ret == FAIL && status == None && buf[..] == old(buf[..]))
          && (cl >= 0 && sc != 200 ==> ret == FAIL && status == Some(sc) && buf[..] == old(buf[..]))
          && (cl >= 0 && sc == 200 ==>
                var t := ReadTotal(chunks(old(gets)), 0, 0, buf.Length - 1, cl, body);
                ret == OK && status == Some(sc) && buf[..] == body[..t] + ['\0'] + old(buf[..])[t + 1..])
    {
      var reply := get(gets);
      var ch := chunks(gets);
      gets := gets + 1;
      status := None;
      if reply.GetNoClient? {
        return FAIL, None;
      }
      if reply.OpenFailed? {
        return reply.err, None;
      }
      if reply.contentLength < 0 {
        return FAIL, None;
      }
      var cl, sc, body := reply.contentLength, reply.status, reply.body;
      status := Some(sc);
      ret := OK;
      if sc != 200 {
        return FAIL, status;
      }
      var total := ReadBody(buf, ch, cl, body);
      buf[total] := '\0';
      assert buf[..] == buf[..total] + [buf[total]] + buf[total + 1..];
    }
  }
}
