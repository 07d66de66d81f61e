/** The greeter service's configuration, read from the environment. */
module GreeterConfig {
  import opened ConfigLoader

  datatype Config = Config(httpPort: string, grpcPort: string, staticDir: string)

  /** Load: the two ports fall back to their defaults when unset or empty;
      the static directory is taken as it is, "" included. */
  function Load(env: Env): (c: Config)
    ensures Getenv(env, "HTTP_PORT") == "" ==> c.httpPort == "8081"
    ensures Getenv(env, "HTTP_PORT") != "" ==> c.httpPort == Getenv(env, "HTTP_PORT")
    ensures Getenv(env, "GRPC_PORT") == "" ==> c.grpcPort == "50051"
    ensures Getenv(env, "GRPC_PORT") != "" ==> c.grpcPort == Getenv(env, "GRPC_PORT")
    ensures c.staticDir == Getenv(env, "SERVER_STATIC_DIR")
  {
    Config(GetEnv(env, "HTTP_PORT", "8081"), GetEnv(env, "GRPC_PORT", "50051"), Getenv(env, "SERVER_STATIC_DIR"))
  }

  /** With nothing set, both ports take their defaults and there is no
      static directory. */
  lemma DefaultsWithEmptyEnvironment()
    ensures Load(map[]) == Config("8081", "50051", "")
  {
  }

  /** The ports never come out empty, whatever the environment holds. */
  lemma PortsNeverEmpty(env: Env)
    ensures Load(env).httpPort != "" && Load(env).grpcPort != ""
  {
  }
}
