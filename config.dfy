/** Process configuration, read once at start-up. */
module Config {
  import opened Jose

  /** `NODE_ENV` and the three signing secrets: `JWT_ACCESS_SECRET`,
      `JWT_REFRESH_SECRET` (the JWT variant) and `SECRET_KEY` (the session variant). */
  datatype Env = Env(nodeEnv: string, jwtAccessSecret: Key, jwtRefreshSecret: Key, secretKey: Key)
}
