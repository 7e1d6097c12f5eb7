/** The network interface of the application (interface/wifi_intf.c): two
    module flags set together by the connect call, a query of one of them
    and a command poll gated by the other. */
module WifiIntf {
  import opened Esp
  import opened HttpClient
  import TransportHttp

  class Wifi {
    /** s_isNetworkReady */
    var networkReady: bool
    /** s_is_connected */
    var connected: bool
    const client: Client

    /** The two flags always agree: only wifiIntfConnect writes them, and it
      writes both with the same value. */
    ghost predicate Valid()
      reads this
    {
      networkReady == connected
    }

    constructor (client: Client)
      ensures this.client == client && !networkReady && !connected && Valid()
    {
      this.client := client;
      networkReady, connected := false, false;
    }

    /** wifiIntfConnect: both flags follow the result of the transport
      bring-up, reported as ESP_OK or ESP_FAIL. */
    method Connect(staInit: Err, gotIp: bool, sntpOk: bool) returns (ret: Err)
      modifies this
      ensures Valid()
      ensures connected == TransportHttp.InitResult(staInit, gotIp, sntpOk)
      ensures ret == (if connected then OK else FAIL)
    {
      if TransportHttp.InitResult(staInit, gotIp, sntpOk) {
        networkReady, connected := true, true;
        return OK;
      }
      networkReady, connected := false, false;
      return FAIL;
    }

    /** wifiIntfIsConnected. */
    method IsConnected() returns (b: bool)
      ensures b == networkReady
    {
      return networkReady;
    }

    /** wifiIntfCheckCommand: false, with no request and the buffer
      untouched, while not connected; otherwise the transport's poll. */
    method CheckCommand(buf: array<char>) returns (ok: bool)
      requires buf.Length >= 1
      modifies client, buf
      ensures !connected ==>
        !ok && buf[..] == old(buf[..]) && client.gets == old(client.gets)
      ensures connected ==>
        var reply := client.get(old(client.gets));
        && client.gets == old(client.gets) + 1
        && (ok <==> reply.Opened? && reply.contentLength >= 0 && reply.status == 200)
        && (ok ==>
              var t := ReadTotal(client.chunks(old(client.gets)), 0, 0, buf.Length - 1, reply.contentLength, reply.body);
              buf[..] == reply.body[..t] + ['\0'] + old(buf[..])[t + 1..])
        && (!ok ==> buf[..] == old(buf[..]))
      ensures client.posts == old(client.posts) && client.delays == old(client.delays)
    {
      if !connected {
        return false;
      }
      ok := TransportHttp.CheckCommand(client, buf);
    }
  }
}
