/** The file by which ocpp-runtime.py remembers the active runtime: `upstream` writes it, and
    `active_mode` recognises it. */
module UpstreamFile {
  import opened Wrappers
  import opened GatewaySwitch

  function Decimal(n: nat): string {
    if n < 10 then ['0' + n as char] else Decimal(n / 10) + ['0' + (n % 10) as char]
  }

  function Name(mode: Runtime): string {
    if mode == Native then "native" else "docker"
  }

  const HEADER := "# Managed by ocpp-runtime: "

  function Tail(mode: Runtime, port: nat): string {
    "\nupstream vtsa_ocpp_active { server 127.0.0.1:" + Decimal(port) + "; }\n"
    + "map \"\" $vtsa_ocpp_runtime { default " + Name(mode) + "; }\n"
  }

  /** `upstream`; None for the error it raises. */
  function Upstream(mode: Runtime, port: nat): Option<string> {
    if !(1024 <= port <= 65535) then None
    else Some(HEADER + (Name(mode) + Tail(mode, port)))
  }

  /** `active_mode`; None for a text it does not recognise, or a port `upstream` refuses before. */
  function ActiveMode(text: string, ports: Runtime -> nat): Option<Runtime> {
    var native := Upstream(Native, ports(Native));
    if native.None? then None
    else if text == native.value then Some(Native)
    else if Upstream(Docker, ports(Docker)) == Some(text) then Some(Docker)
    else None
  }

  /** The text is written for every port that is not reserved, and names the port in decimal. */
  lemma UpstreamText(mode: Runtime, port: nat)
    ensures Upstream(mode, port).Some? <==> 1024 <= port <= 65535
    ensures 1024 <= port <= 65535 ==>
              var name := if mode == Docker then "docker" else "native";
              Upstream(mode, port).value
              == "# Managed by ocpp-runtime: "
                 + (name + ("\nupstream vtsa_ocpp_active { server 127.0.0.1:" + Decimal(port) + "; }\n"
                            + "map \"\" $vtsa_ocpp_runtime { default " + name + "; }\n"))
    ensures Value(Decimal(port)) == port
  {
    ValueOfDecimal(port);
    hide Decimal, Value;
  }

  /** int(text) for decimal digits. */
  function Value(text: string): int {
    if text == "" then 0 else 10 * Value(text[..|text| - 1]) + (text[|text| - 1] as int - '0' as int)
  }

  lemma {:induction false} ValueOfDecimal(n: nat)
    ensures Value(Decimal(n)) == n
  {
    if n >= 10 {
      ValueOfDecimal(n / 10);
      var last := '0' + (n % 10) as char;
      assert Decimal(n)[..|Decimal(n)| - 1] == Decimal(n / 10);
    } else {
      var s := Decimal(n);
      assert s[..0] == "" && s[0] as int - '0' as int == n;
      assert Value(s[..0]) == 0;
    }
  }

  lemma NamesTheRuntime(mode: Runtime, port: nat)
    requires Upstream(mode, port).Some?
    ensures |HEADER| < |Upstream(mode, port).value| && Upstream(mode, port).value[|HEADER|] == Name(mode)[0]
  {
    hide Tail;
  }

  /** Whatever the ports are, the text written for a runtime is recognised as that runtime, and no
      other text is. */
  lemma ActiveModeIsWritten(text: string, ports: Runtime -> nat, mode: Runtime)
    requires Upstream(Native, ports(Native)).Some?
    ensures ActiveMode(text, ports) == Some(mode) <==> Upstream(mode, ports(mode)) == Some(text)
  {
    hide Upstream;
    NamesTheRuntime(Native, ports(Native));
    if Upstream(Docker, ports(Docker)).Some? {
      NamesTheRuntime(Docker, ports(Docker));
    }
  }
}
