// The protocols of inbounds, outbounds and user accounts (app/models/proxy.py).

module Protocols {
  const INBOUND_PROTOCOLS: set<string> := {
    "dokodemo-door", "http", "shadowsocks", "trojan", "vless", "vmess", "wireguard", "hysteria", "tun"}

  const OUTBOUND_PROTOCOLS: set<string> := {
    "blackhole", "dns", "freedom", "http", "loopback", "shadowsocks", "trojan", "vless", "vmess", "wireguard", "hysteria"}

  const ACCOUNT_PROTOCOLS: set<string> := {"vmess", "vless", "trojan", "shadowsocks", "hysteria"}
}
