/** Record shapes shared by the Rust commands and the TypeScript front end. */
module Records {
  import opened Wrappers

  /** Rust `i32`, the type of the `id` columns. */
  newtype int32 = x: int | -0x8000_0000 <= x < 0x8000_0000

  /** Rust `u16`, the type of the database port. */
  newtype uint16 = x: int | 0 <= x < 0x1_0000

  /** One catalogued file as returned by a search; `lastModified` is already formatted text. */
  datatype FileResult = FileResult(id: int32, filename: string, directory: string, lastModified: Option<string>)

  /** One row of the key/value configuration table. */
  datatype Configuration = Configuration(id: int32, key: string, value: string, description: Option<string>, updatedAt: string)

  /** Connection parameters handed to the database driver; the core never inspects them. */
  datatype DatabaseConfig = DatabaseConfig(host: string, port: uint16, user: string, password: string, database: string)
}
