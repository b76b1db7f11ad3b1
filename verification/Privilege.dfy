module Privileges {
  datatype Privilege = User | Supervisor | Machine

  function Rank(p: Privilege): nat {
    match p
    case User => 0
    case Supervisor => 1
    case Machine => 3
  }
}
