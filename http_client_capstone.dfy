/** The older httpPostJson (capstoneHeartlink/net_components/net/src/
    http_client_common.c): it gives up at the first failed client init,
    stops at the first completed perform whatever its status, and sleeps
    after every failed perform, the last one included. */
module HttpClientCapstone {
  import opened Esp
  import opened HttpClient

  /** What this httpPostJson returns, writes to *status (None: not
      written), sleeps, and how many attempts it made. */
  datatype CapPost = CapPost(ret: Err, status: Option<int>, delays: seq<nat>, used: nat)

  /** The retry loop from attempt i, `ret` holding the last perform error. */
  function CapPostFrom(att: nat -> Attempt, k0: nat, n: int, i: nat, ret: Err, d: seq<nat>): CapPost
    decreases n - i
  {
    if i >= n then CapPost(ret, Some(-1), d, i)
    else
      match att(k0 + i)
      case NoClient => CapPost(FAIL, None, d, i + 1)
      case Performed(r, s) =>
        if r == OK then CapPost(OK, Some(s), d, i + 1)
        else CapPostFrom(att, k0, n, i + 1, r, d + [BACKOFF_STEP_MS * (i + 1)])
  }

  function CapPostFn(att: nat -> Attempt, k0: nat, n: int): CapPost {
    CapPostFrom(att, k0, n, 0, FAIL, [])
  }

  /** An attempt that ends the loop: no client, or a completed perform. */
  predicate Settles(a: Attempt) {
    a.NoClient? || a.ret == OK
  }

  /** The first attempt from i on that ends the loop, n if none. */
  function FirstSettled(att: nat -> Attempt, k0: nat, n: int, i: nat): (j: int)
    ensures i < n ==> i <= j <= n
    ensures i <= j < n ==> Settles(att(k0 + j))
    ensures i < n && j == n ==> !Settles(att(k0 + n - 1))
    decreases n - i
  {
    if i >= n then n
    else if Settles(att(k0 + i)) then i
    else FirstSettled(att, k0, n, i + 1)
  }

  lemma {:induction false} CapPostFromSettled(att: nat -> Attempt, k0: nat, n: int, i: nat, ret: Err)
    requires i < n
    ensures var r, j := CapPostFrom(att, k0, n, i, ret, Backoff(i)), FirstSettled(att, k0, n, i);
      && (j < n && att(k0 + j).NoClient? ==> r == CapPost(FAIL, None, Backoff(j), j + 1))
      && (j < n && att(k0 + j).Performed? ==> r == CapPost(OK, Some(att(k0 + j).status), Backoff(j), j + 1))
      && (j == n ==> r == CapPost(att(k0 + n - 1).ret, Some(-1), Backoff(n), n))
    decreases n - i
  {
    if !Settles(att(k0 + i)) {
      assert Backoff(i) + [BACKOFF_STEP_MS * (i + 1)] == Backoff(i + 1);
      if i + 1 < n {
        CapPostFromSettled(att, k0, n, i + 1, att(k0 + i).ret);
      }
    }
  }

  /** The older httpPostJson ends at the first attempt that either has no
      client (ESP_FAIL, *status not written) or completes its perform (ESP_OK
      and that status, 2xx or not), having slept 300, 600, ... ms after each
      failed perform before it. If every perform fails it returns the last
      error with status -1 after sleeping once per attempt; with
      retry_max <= 0 it returns ESP_FAIL and -1. */
  lemma CapPostPolicy(att: nat -> Attempt, k0: nat, n: int)
    ensures n <= 0 ==> CapPostFn(att, k0, n) == CapPost(FAIL, Some(-1), [], 0)
    ensures var r, j := CapPostFn(att, k0, n), FirstSettled(att, k0, n, 0);
      && (0 < n && j < n && att(k0 + j).NoClient? ==> r == CapPost(FAIL, None, Backoff(j), j + 1))
      && (0 < n && j < n && att(k0 + j).Performed? ==> r == CapPost(OK, Some(att(k0 + j).status), Backoff(j), j + 1))
      && (0 < n && j == n ==> r == CapPost(att(k0 + n - 1).ret, Some(-1), Backoff(n), n))
  {
    if 0 < n {
      CapPostFromSettled(att, k0, n, 0, FAIL);
    }
  }

  /** Where the two versions part: on a first attempt answered with a
      non-2xx status, the older one reports ESP_OK after one attempt while
      the newer one goes on retrying; on a first attempt without a client,
      the older one gives up while the newer one goes on. */
  lemma DiffersFromHeartLink(att: nat -> Attempt, k0: nat, n: int)
    requires 2 <= n
    ensures att(k0).Performed? && att(k0).ret == OK && !Is2xx(att(k0).status) ==>
      CapPostFn(att, k0, n) == CapPost(OK, Some(att(k0).status), [], 1) && PostFn(att, k0, n).used >= 2
    ensures att(k0).NoClient? ==>
      CapPostFn(att, k0, n) == CapPost(FAIL, None, [], 1) && PostFn(att, k0, n).used >= 2
  {
    assert att(k0 + 0) == att(k0);
    if !Succeeded(att(k0)) {
      var d := [BACKOFF_STEP_MS * 1];
      assert [] + d == d;
      assert PostFn(att, k0, n) == PostFrom(att, k0, n, 1, NextRet(att(k0), FAIL), NextSc(att(k0), -1), d);
      PostUsesAtLeast(att, k0, n, 1, NextRet(att(k0), FAIL), NextSc(att(k0), -1), d);
    }
  }

  lemma {:induction false} PostUsesAtLeast(att: nat -> Attempt, k0: nat, n: int, i: nat, ret: Err, sc: int, d: seq<nat>)
    requires i < n
    ensures PostFrom(att, k0, n, i, ret, sc, d).used > i
    decreases n - i
  {
    if i + 1 < n && !Succeeded(att(k0 + i)) {
      var d' := if i < n - 1 then d + [BACKOFF_STEP_MS * (i + 1)] else d;
      PostUsesAtLeast(att, k0, n, i + 1, NextRet(att(k0 + i), ret), NextSc(att(k0 + i), sc), d');
    }
  }

  /** httpPostJson of the older version on the same HTTP library oracle. */
  method PostJson(c: Client, timeoutMs: int, retryMax: int) returns (ret: Err, status: Option<int>)
    modifies c
    ensures var r := CapPostFn(c.post, old(c.posts), retryMax);
      && ret == r.ret && status == r.status
      && c.delays == old(c.delays) + r.delays && c.posts == old(c.posts) + r.used
    ensures c.gets == old(c.gets)
  {
    ghost var k0, d0 := c.posts, c.delays;
    ghost var d: seq<nat> := [];
    ret := FAIL;
    var sc := -1;
    var i: nat := 0;
    while i < retryMax
      invariant c.posts == k0 + i && c.delays == d0 + d && c.gets == old(c.gets)
      invariant CapPostFn(c.post, k0, retryMax) == CapPostFrom(c.post, k0, retryMax, i, ret, d)
      decreases retryMax - i
    {
      var a := c.post(c.posts);
      c.posts := c.posts + 1;
      if a.NoClient? {
        return FAIL, None;
      }
      ret := a.ret;
      if ret == OK {
        sc := a.status;
        i := i + 1;
        break;
      }
      c.delays, d := c.delays + [BACKOFF_STEP_MS * (i + 1)], d + [BACKOFF_STEP_MS * (i + 1)];
      i := i + 1;
    }
    status := Some(sc);
  }
}
