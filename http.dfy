/** The request and response objects the server code receives, and the admin
    record the authentication helpers hand back. */
module Http {
  import opened Wrappers
  import opened Js

  /** `opts.req` / `ctx.req`: either missing (`undefined`), or a request with
      an optional `headers` object and the `secure` flag of its transport. */
  datatype Request =
    | Missing
    | Incoming(headers: Option<Object>, secure: Value)

  /** An administrator as the authentication helpers return it. */
  datatype AdminUser = AdminUser(id: string, username: string, email: Option<string>, name: Option<string>)

  /** `ctx.res`: `canSetHeader` says whether `res.setHeader` exists;
      `headers` holds what has been set so far. */
  class Response {
    const canSetHeader: bool
    var headers: map<string, string>

    constructor (canSetHeader: bool)
      ensures this.canSetHeader == canSetHeader && headers == map[]
    {
      this.canSetHeader := canSetHeader;
      headers := map[];
    }

    /** `res.setHeader(name, value)` replaces any earlier value of that header. */
    method SetHeader(name: string, value: string)
      requires canSetHeader
      modifies this
      ensures headers == old(headers)[name := value]
    {
      headers := headers[name := value];
    }
  }
}
