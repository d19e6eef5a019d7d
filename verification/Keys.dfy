/** The two kinds of public key. */
module Keys {
  datatype KeyType = SSH | GPG
}
