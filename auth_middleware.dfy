/** internal/middleware/auth_middleware.go: bearer-token authentication. */
module AuthMiddleware {
  import opened Wrappers
  import opened Core
  import opened Http

  /** The claims a valid token carries. */
  datatype Claims = Claims(userId: Uuid, role: string)

  /** `utils.ValidateToken` with the configured secret. */
  type TokenValidator = string -> Result<Claims, string>

  /** `strings.Split(s, string(sep))`: the pieces between separators, empty
      pieces included; always at least one piece. */
  function Split(s: string, sep: char): (parts: seq<string>)
    ensures |parts| >= 1
    ensures forall i :: 0 <= i < |parts| ==> sep !in parts[i]
  {
    if s == [] then [""]
    else
      var rest := Split(s[1..], sep);
      if s[0] == sep then [""] + rest else [[s[0]] + rest[0]] + rest[1..]
  }

  /** The pieces glued back together with the separator between them. */
  function Join(parts: seq<string>, sep: char): string
    requires |parts| >= 1
  {
    if |parts| == 1 then parts[0] else parts[0] + [sep] + Join(parts[1..], sep)
  }

  /** Splitting loses nothing. */
  lemma {:induction false} JoinSplit(s: string, sep: char)
    ensures Join(Split(s, sep), sep) == s
  {
    if s != [] {
      JoinSplit(s[1..], sep);
      var rest := Split(s[1..], sep);
      if s[0] == sep {
        assert Split(s, sep)[1..] == rest;
      } else {
        var parts := Split(s, sep);
        if |rest| == 1 {
          assert parts == [[s[0]] + rest[0]];
        } else {
          assert parts[1..] == rest[1..];
          assert Join(rest, sep) == rest[0] + [sep] + Join(rest[1..], sep);
        }
      }
    }
  }

  /** Pieces without the separator come back from splitting their join. */
  lemma {:induction false} SplitJoin(parts: seq<string>, sep: char)
    requires |parts| >= 1
    requires forall i :: 0 <= i < |parts| ==> sep !in parts[i]
    ensures Split(Join(parts, sep), sep) == parts
  {
    if |parts| == 1 {
      SplitPiece(parts[0], sep, []);
    } else {
      SplitJoin(parts[1..], sep);
      SplitPiece(parts[0], sep, Join(parts[1..], sep));
      assert parts == [parts[0]] + parts[1..];
    }
  }

  /** A piece without the separator, followed by a separator and a tail, splits
      into that piece and the tail's pieces. */
  lemma {:induction false} SplitPiece(piece: string, sep: char, tail: string)
    requires sep !in piece
    ensures tail == [] ==> Split(piece, sep) == [piece]
    ensures Split(piece + [sep] + tail, sep) == [piece] + Split(tail, sep)
  {
    if piece != [] {
      SplitPiece(piece[1..], sep, tail);
      assert (piece + [sep] + tail)[1..] == piece[1..] + [sep] + tail;
      if tail == [] {
        assert [piece[0]] + piece[1..] == piece;
      }
      assert [piece[0]] + piece[1..] == piece;
    } else {
      assert piece + [sep] + tail == [sep] + tail;
      assert ([sep] + tail)[1..] == tail;
    }
  }

  /** `Bearer `, then a token without spaces. */
  predicate IsBearerHeader(header: string)
  {
    |header| >= 7 && header[..7] == "Bearer " && ' ' !in header[7..]
  }

  /** The format check of the middleware: splitting on single spaces gives
      exactly `Bearer` and one token. Two spaces in a row, or a space inside
      the token, give more pieces and fail it. */
  lemma BearerFormat(header: string)
    ensures var parts := Split(header, ' ');
            (|parts| == 2 && parts[0] == "Bearer") <==> IsBearerHeader(header)
    ensures IsBearerHeader(header) ==> Split(header, ' ')[1] == header[7..]
  {
    var parts := Split(header, ' ');
    if |parts| == 2 && parts[0] == "Bearer" {
      JoinSplit(header, ' ');
      assert header == "Bearer" + [' '] + parts[1];
      assert header[7..] == parts[1];
    }
    if IsBearerHeader(header) {
      var token := header[7..];
      assert header == "Bearer" + [' '] + token;
      assert header == Join(["Bearer", token], ' ');
      SplitJoin(["Bearer", token], ' ');
    }
  }

  /** The middleware: the request goes on, with `userID` and `role` set from
      the token's claims, exactly when the header is `Bearer <token>` and the
      token validates; otherwise it aborts with 401 and the reason. */
  function Authenticate(header: string, validate: TokenValidator, ctx: Context): (r: Outcome)
    ensures header == "" ==> r == Abort(StatusUnauthorized, "Authorization header is required")
    ensures header != "" && !IsBearerHeader(header) ==> r == Abort(StatusUnauthorized, "Authorization header format must be Bearer {token}")
    ensures IsBearerHeader(header) && validate(header[7..]).Failure? ==> r == Abort(StatusUnauthorized, "Invalid token")
    ensures r.Next? <==> IsBearerHeader(header) && validate(header[7..]).Success?
    ensures r.Next? ==> var claims := validate(header[7..]).value;
                        r.ctx == ctx["userID" := UuidValue(claims.userId)]["role" := StringValue(claims.role)]
  {
    if header == "" then Abort(StatusUnauthorized, "Authorization header is required")
    else
      var parts := Split(header, ' ');
      BearerFormat(header);
      if |parts| != 2 || parts[0] != "Bearer" then Abort(StatusUnauthorized, "Authorization header format must be Bearer {token}")
      else
        match validate(parts[1])
        case Failure(_) => Abort(StatusUnauthorized, "Invalid token")
        case Success(claims) => Next(ctx["userID" := UuidValue(claims.userId)]["role" := StringValue(claims.role)])
  }
}
