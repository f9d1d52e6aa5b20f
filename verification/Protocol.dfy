// What the node and the master share: connection ids and rendezvous modes.
module Protocol {
  datatype Id = Id(node: nat, idx: nat)

  datatype Mode = Unknown | Fast | SymmConn | SymmAcc
}
