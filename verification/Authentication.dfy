/** What clients authenticate with, in SOCKS5 messages and in Proxy-Authorization headers. */
module Authentication {
  import opened Bytes

  /** A username and a password, as the bytes they travel in. */
  datatype Credentials = Credentials(username: bytes, password: bytes)
}
