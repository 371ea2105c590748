/** The file system both scripts write to, seen as a map from full path to file contents. */
module Storage {

  type Bytes = seq<bv8>

  /** Regular files only: a path is present exactly when a file exists there. */
  type FileStore = map<string, Bytes>
}
