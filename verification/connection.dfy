/** The MongoDB connection string `connectionString` builds from the
    database credentials (database/database.go).  The escaping of user
    names and passwords (Go's `url.QueryEscape`) is a parameter.
 */
module Connection {

  import opened Outcomes
  import opened Strings

  datatype Credentials = Credentials(user: string, password: string, host: string, port: string)

  const Scheme: string := "mongodb://"
  const MongoCompressors: string := "zstd,zlib,snappy"
  const MongoReadPreference: string := "nearest"
  const MongoWriteConcern: string := "majority"
  const MongoWriteConcernTimeout: string := "1000"

  /** Everything after the port: the connection options. */
  const Options: string :=
    "/?compressors=" + MongoCompressors + "&readPreference=" + MongoReadPreference
    + "&w=" + MongoWriteConcern + "&wtimeoutMS=" + MongoWriteConcernTimeout

  function ConnectionString(creds: Credentials, escape: string -> string): (r: string)
    ensures |r| == |Scheme| + |escape(creds.user)| + 1 + |escape(creds.password)| + 1
                   + |creds.host| + 1 + |creds.port| + |Options|
    ensures r[..|Scheme|] == Scheme
    ensures r[|r| - |Options|..] == Options
  {
    Scheme + escape(creds.user) + ":" + escape(creds.password) + "@" + creds.host + ":" + creds.port + Options
  }

  /** The parts of a connection string: escaped user, escaped password,
      host and port. */
  datatype Parts = Parts(user: string, password: string, host: string, port: string)

  /** Reads a connection string back: the user ends at the first `:`, the
      password at the next `@`, the port starts after the last `:` before
      the options. */
  function Parse(s: string): Option<Parts>
  {
    if |s| < |Scheme| + |Options| || s[..|Scheme|] != Scheme || s[|s| - |Options|..] != Options then None
    else
      match SplitFirst(s[|Scheme|..|s| - |Options|], ':')
      case None => None
      case Some((user, afterUser)) =>
        match SplitFirst(afterUser, '@')
        case None => None
        case Some((password, hostPort)) =>
          match SplitLast(hostPort, ':')
          case None => None
          case Some((host, port)) => Some(Parts(user, password, host, port))
  }

  /** The connection string carries the escaped user and password and the
      verbatim host and port, recoverable as long as the escaped user has no
      `:`, the escaped password no `@` and the port no `:` (the escape
      turns both characters into percent codes). */
  lemma ParseConnectionString(creds: Credentials, escape: string -> string)
    requires ':' !in escape(creds.user) && '@' !in escape(creds.password) && ':' !in creds.port
    ensures Parse(ConnectionString(creds, escape))
            == Some(Parts(escape(creds.user), escape(creds.password), creds.host, creds.port))
  {
    var u, pw, h, pt := escape(creds.user), escape(creds.password), creds.host, creds.port;
    var hostPort := h + [':'] + pt;
    var afterUser := pw + ['@'] + hostPort;
    var body := u + [':'] + afterUser;
    var s := ConnectionString(creds, escape);
    assert s == Scheme + body + Options;
    assert s[..|Scheme|] == Scheme && s[|s| - |Options|..] == Options;
    assert s[|Scheme|..|s| - |Options|] == body;
    SplitFirstAt(u, ':', afterUser);
    SplitFirstAt(pw, '@', hostPort);
    SplitLastAt(h, ':', pt);
    assert SplitFirst(body, ':') == Some((u, afterUser));
  }

  /** Different credentials give different connection strings whenever the
      escape is injective and the parts can be read back. */
  lemma ConnectionStringInjective(a: Credentials, b: Credentials, escape: string -> string)
    requires ':' !in escape(a.user) && '@' !in escape(a.password) && ':' !in a.port
    requires ':' !in escape(b.user) && '@' !in escape(b.password) && ':' !in b.port
    requires forall x, y :: escape(x) == escape(y) ==> x == y
    requires ConnectionString(a, escape) == ConnectionString(b, escape)
    ensures a == b
  {
    ParseConnectionString(a, escape);
    ParseConnectionString(b, escape);
  }
}
