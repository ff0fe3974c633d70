/** The registry shared by every project of a user: which id belongs to which directory and storage. */
module ProjectRegistry {

  type ProjectId = nat

  /** Canonical directories; only their identity matters. */
  type Root = nat

  type StorageRoot = nat

  /** A registry entry: where the project lives and where its repository is kept. */
  datatype Claim = Claim(root: Root, storage: StorageRoot)

  type Registry = map<ProjectId, Claim>
}
