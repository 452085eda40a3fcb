/** Names shared by the disk scan and the sampler. */
module Accounting {

  type Path = seq<string>

  /** The categories that are measured; `system` is what remains of the host. */
  datatype Category = Databases | Hosting | Builds | Platform | Backups

  const ALL: set<Category> := {Databases, Hosting, Builds, Platform, Backups}

  lemma AllIsAll(c: Category)
    ensures c in ALL
  {
    match c { case Databases => case Hosting => case Builds => case Platform => case Backups => }
  }
}
