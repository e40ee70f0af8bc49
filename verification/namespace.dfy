/** The XML namespace prefixes the request builders write into element names
    (lib/creditsafe/namespace.rb). */
module Namespace {

  const Oper := "oper"
  const Dat := "dat"
  const Cred := "cred"

  /** `"#{prefix}:#{name}"`, a qualified element name. */
  function Qualified(prefix: string, name: string): (q: string)
    ensures |q| == |prefix| + 1 + |name|
    ensures q[..|prefix|] == prefix && q[|prefix|] == ':' && q[|prefix| + 1..] == name
  {
    prefix + ":" + name
  }
}
